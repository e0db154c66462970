# zenith identity and pager core, in Dafny

This project models the parts of zenith that carry real logic:

- **Session-backed user records** (`zenith/home.py`). `User.create` turns the
  request's cookies into a loaded `User`, or into a redirect to `/login`. It
  looks up `z:session:<sid>` in the shared Redis store and parses the stored
  uid with Python's `int()`. `User.load` and `User.save` keep the profile
  (`level`, `name`, `email`) under `z:user:<uid>`.
- **Real-time identity binding and the pager channel** (`zenith/websock.py`).
  `WebsockAuth.hello` resolves a session id and stamps the connection with the
  marker `user:<uid>`. `Pager.send` publishes on channel `pager`.
  `Websockets.handle_connect` subscribes each new connection to `pager`.
- **The browser client** (`public/js/game.js`). `extract_cookie` reads a
  cookie out of `document.cookie`. `onmessage` dispatches through the
  `handlers` table. `send_message` frames its arguments as an array. There is
  also the hello sent on open and the pager button.

How the pieces are modelled:

- The store is a class `KeyValue.Store` holding a `map<string, Value>`. A
  `Value` is either `Record(fields)` or `Raw(text)`. `Record(fields)` is the
  text of a JSON object, kept as its decoded members in document order; this
  is what `json.dumps(dict)` writes. `load` walks the dict that `json.loads`
  builds from those members (`Home.DictItems`): a repeated key keeps the
  position of its first occurrence and takes the value of its last.
  `Raw(text)` is any other byte string,
  such as a session's uid.
- Two consequences follow from that split. `int()` of a `Record` always
  raises. `json.loads(...).items()` of a non-empty `Raw` always raises.
- `User`, the gateway, and the client page are classes. Their methods update
  fields, and each method is proved against a specification function on
  values: `LoadSpec`, `SaveSpec`, `CreateSpec`, `HelloSpec`, `DispatchSpec`,
  `CookieLookup`. The lemmas are proved about those functions.
- Python's `int()` on the store's bytes is modelled in `Decimal.ParseInt`:
  surrounding ASCII whitespace, an optional sign, and digits with single
  underscores between them. Python's `str(int)` is `Decimal.IntToString`.

Behaviour of the code that the model keeps as it is:

- `hello` with an absent or empty session value returns None and stamps
  nothing (zenith/websock.py:26-27).
- `User.create` raises ValueError on an empty session value instead of
  redirecting (zenith/home.py:41-43).
- Nothing in zenith/websock.py reads a marker back; `Websock.MarkerUid`
  exists only to state what `hello` stamps.
- A record member that `setattr` refuses (`__class__`, `__weakref__`, or a
  `__dict__` that is not an object) makes `load` raise after the members
  before it were copied (zenith/home.py:52-53).
- `onmessage` looks the head up in a plain object, so a head naming a method
  inherited from Object.prototype runs that method. `__defineGetter__` and
  `__defineSetter__` then always throw, and the methods that convert their
  first argument to a key throw on an object with its own `toString`
  (public/js/game.js:16-18).

## Model

| member | source | states |
|---|---|---|
| `Decimal.ParseIntRoundTrip` | zenith/websock.py:28-29 | `int(str(n)) == n` for every integer `n`: the decimal text written into keys and markers parses back to the same uid |
| `Decimal.ParseIntEmpty` | zenith/home.py:43 | `int(b'')` raises: empty bytes parse to no integer |
| `Decimal.IntToStringInjective` | zenith/home.py:56 | distinct uids have distinct decimal texts, so distinct `z:user:` keys |
| `Decimal.IntToString` | zenith/home.py:56 | `'{:d}'.format(uid)` (and `str`, `'{}'.format`) is non-empty, ends in a digit and starts with a digit or a minus sign |
| `Decimal.ParseInt` | zenith/home.py:43 | `int()` raises on bytes that are empty or all whitespace, and any bytes it accepts contain a digit |
| `Decimal.ParseUnsigned` | zenith/home.py:43 | `int()` of a well-formed magnitude with nothing around it is that magnitude |
| `Decimal.ParseNegative` | zenith/home.py:43 | `int()` of a minus sign followed by a well-formed magnitude is its negation |
| `KeyValue.Get` | zenith/home.py:40 | GET yields `Some(v)` exactly when the key is stored, `v` being the stored value; otherwise None |
| `KeyValue.Store.Lookup` | zenith/home.py:40 | GET on the store yields the stored value exactly when the key is present, and None otherwise |
| `KeyValue.Store.Set` | zenith/home.py:56 | SET overwrites the one key and leaves every other key as it was |
| `Home.User.constructor` | zenith/home.py:27-31 | a new User has the given uid, level 1, name None, email None and no other attribute |
| `Home.User.SetAttr` | zenith/home.py:53 | `setattr(self, k, v)` raises and changes nothing for `__class__`, `__weakref__` or a non-object `__dict__`; otherwise it changes attribute `k` to `v` and nothing else |
| `Home.User.Load` | zenith/home.py:48-53 | the new attributes and the raised error are `LoadSpec` of the old attributes: unchanged for a missing or empty record; every item of the decoded dict copied, in the dict's order, for a decoded record; an error with nothing changed for an undecodable one; an error after the earlier items for a refused item |
| `Home.KeyIndex` | zenith/home.py:51 | the position of the first item with a given key, or the length when no item has it; every item before it has another key |
| `Home.DictPut` | zenith/home.py:51 | storing a key in a dict: an existing key keeps its position and takes the new value; a new key is appended |
| `Home.DictPutDistinct` | zenith/home.py:51 | storing a key keeps every key of the dict once |
| `Home.DictPutLastValue` | zenith/home.py:51 | after storing `k: v`, `k` has the value `v` and every other key keeps its value |
| `Home.DictItemsLastValue` | zenith/home.py:51-52 | the dict `json.loads` builds holds each key once, with the value of the key's last member in the record |
| `Home.DictItemsOfDistinct` | zenith/home.py:51-61 | members with distinct keys, such as the record save writes, make a dict holding exactly them in the same order |
| `Home.LoadRepeatedKey` | zenith/home.py:51-53 | `{"level": 2, "__class__": 0, "level": 3}` sets level to 3 and then raises: a repeated key is applied at its first position with its last value |
| `Home.User.ApplyFields` | zenith/home.py:52-53 | the setattr loop ends in `ApplyRecord` of the old attributes: members applied in order, a later one overriding an earlier one, stopping with an error at the first refused member |
| `Home.User.Save` | zenith/home.py:55-61 | the store afterwards is the old store with `z:user:<uid>` overwritten by the record of level, name and email |
| `Home.User.Create` | zenith/home.py:33-46 | the outcome (redirect, loaded user, or exception) is `CreateSpec` of the cookies and the store; a returned user is new and bound to the same store |
| `Home.CreateWithoutSid` | zenith/home.py:36-37 | no `sid` cookie: a redirect to `/login`, and the same result for every store (nothing is read) |
| `Home.CreateUnknownSession` | zenith/home.py:40-42 | a `sid` whose `z:session:` key is absent: a redirect to `/login` |
| `Home.CreateEmptySession` | zenith/home.py:40-43 | an empty stored session value is not a redirect: `int(b'')` raises ValueError |
| `Home.CreateResolved` | zenith/home.py:43-46 | a sid that resolves never redirects; with no user record the result is a fresh User of the parsed uid |
| `Home.CreateResolvedWithRecord` | zenith/home.py:43-53 | with a decoded user record whose dict has no refused item, the User is that dict applied to a fresh User of the parsed uid: it keeps that uid unless the record carries `uid`, and its level, name and email are the record's wherever the record has them |
| `Home.ApplyRecordAttr` | zenith/home.py:52-53 | with no refused member the setattr loop does not raise; every attribute named in the record ends with the record's last value for it, and every other attribute keeps its value |
| `Home.ApplyRecordAccepted` | zenith/home.py:52-53 | a record with no refused member is applied to its end without raising |
| `Home.ErrorPersists` | zenith/home.py:52-53 | once a member has been refused, the members after it are never applied |
| `Home.ApplyRecordStopsAt` | zenith/home.py:52-53 | the first refused member raises; the members before it stay applied and the ones after it are not |
| `Home.LoadAbsentOrEmpty` | zenith/home.py:49-50 | no record, or an empty one, under `z:user:<uid>` leaves every attribute unchanged |
| `Home.LoadMalformed` | zenith/home.py:50-51 | a non-empty value that is not a JSON object raises and changes nothing |
| `Home.LoadStopsAtRefusedMember` | zenith/home.py:50-53 | a record whose dict has its first refused item at `k`: load raises with the dict's items `0..k-1` copied onto the object |
| `Home.LoadCopiesFields` | zenith/home.py:49-53 | load of a stored record whose dict has no refused item succeeds; every key present in the record gets its last member's value, and all other attributes keep their prior values |
| `Home.SaveTouchesOneKey` | zenith/home.py:55-61 | save adds or overwrites exactly `z:user:<uid>` with `{level, name, email}` (a full overwrite), and every other key keeps its value |
| `Home.SaveLoadRoundTrip` | zenith/home.py:48-61 | save, then load on any User with the same uid, gives that User the saved level, name and email; nothing else changes |
| `Home.SaveThenLoadFresh` | zenith/home.py:27-61 | a fresh User of the saved uid loads exactly the saved level, name and email |
| `Home.SaveKeepsOtherUsers` | zenith/home.py:49-56 | saving one uid does not change what load gives any other uid |
| `Home.SaveKeepsSessions` | zenith/home.py:40-56 | saving a user never changes any `z:session:` lookup: the two key spaces are disjoint |
| `Websock.Gateway.SetCookie` | zenith/websock.py:29 | the connection's marker becomes the given one; other markers, subscriptions and the publish log are unchanged |
| `Websock.Gateway.Subscribe` | zenith/websock.py:39 | the connection's channel set gains the channel; markers and the publish log are unchanged |
| `Websock.Gateway.Publish` | zenith/websock.py:15 | exactly one (channel, message) pair is appended to the publish log; nothing else changes |
| `Websock.Pager.Send` | zenith/websock.py:13-15 | exactly one publish on `pager` with `['pager.message', user.name, text]`; markers and subscriptions unchanged |
| `Websock.WebsockAuth.Hello` | zenith/websock.py:24-33 | the reply and the marker change are `HelloSpec` of the store and sid; subscriptions, the publish log and the store are unchanged |
| `Websock.Websockets.HandleConnect` | zenith/websock.py:38-39 | the connection's subscriptions gain `pager`; markers and the publish log are unchanged |
| `Websock.HelloMarksOnlyOnSuccess` | zenith/websock.py:26-29 | a marker is set if and only if the session value is present, non-empty and an integer; the marker is then `user:` followed by the decimal uid |
| `Websock.HelloRejectsAbsentOrEmpty` | zenith/websock.py:26-27 | an absent or empty session value: no marker and no reply |
| `Websock.MarkerRoundTrip` | zenith/websock.py:29 | the marker `user:<uid>` reads back as exactly that uid |
| `Websock.HelloReplyMatchesMarker` | zenith/websock.py:28-33 | a reply's uid is the session's parsed uid and the one embedded in the stamped marker; its name is None when no user record exists |
| `Websock.HelloReplyName` | zenith/websock.py:30-33 | with a stored record naming the user and a dict with no refused item, the reply carries the record's last `name` |
| `Websock.HelloRefusedMemberStillMarks` | zenith/websock.py:29-32 | the marker is stamped before load, so a record whose dict has a refused item leaves the connection marked and hello raises |
| `Websock.EmptySessionHelloVersusCreate` | zenith/websock.py:26-27 | on an empty session value, `hello` treats the caller as not signed in, while `User.create` raises ValueError |
| `Websock.SubscribeAddsOnlyThatChannel` | zenith/websock.py:38-39 | subscribing adds the channel to that connection only, keeps its earlier channels, and subscribing twice equals subscribing once |
| `Cookie.Split` | public/js/game.js:39 | split yields at least one part, and no part contains the separator |
| `Cookie.SplitLimit` | public/js/game.js:41 | `split(sep, limit)` gives at most `limit` parts, the leading parts of the unlimited split, and all of them when fewer than `limit` exist |
| `Cookie.JoinSplit` | public/js/game.js:39 | joining the parts of a split with the separator gives back the original string |
| `Cookie.SplitJoin` | public/js/game.js:39 | splitting a join of separator-free parts gives back those parts |
| `Cookie.SplitFirst` | public/js/game.js:41 | the first part ends at the first separator, and the remaining parts are the split of what follows it |
| `Cookie.PairParts` | public/js/game.js:41-43 | `split('=', 2)` has one or two parts: the name part, then the value part if there is an `=` |
| `Cookie.ExtractCookie` | public/js/game.js:38-46 | the loop returns `CookieLookup` of the `;`-separated pieces: the first piece whose name part equals `name` decides, and no match gives `null` |
| `Cookie.CookieLookupIsFirstMatch` | public/js/game.js:40-45 | the result is `null` if and only if no piece's name part equals `name`; otherwise it is the value of the first such piece |
| `Cookie.NameOfPair` | public/js/game.js:42 | the name part of `n=rest` is `n` when `n` has no `=` |
| `Cookie.ValueStopsAtSecondEquals` | public/js/game.js:41 | the value of `n=v=rest` is `v`: the split limit drops everything after a second `=` |
| `Cookie.BarePieceIsUndefined` | public/js/game.js:41-43 | a piece with no `=` matches its whole text and yields `undefined`, not `null` |
| `Cookie.LeadingSpaceNeverMatches` | public/js/game.js:39-42 | no trimming: a piece that starts with a space never matches a name that does not |
| `Cookie.ExampleSecondEquals` | public/js/game.js:41 | `sid=a=b` yields `a` for `sid` |
| `Cookie.ExampleBareName` | public/js/game.js:41-43 | `sid` with no `=` yields `undefined` for `sid` |
| `Cookie.SplitDocumentCookie` | public/js/game.js:39 | a cookie string joined by `"; "` splits into its pairs, with every piece after the first keeping a leading space |
| `Cookie.OnlyFirstCookieMatches` | public/js/game.js:38-46 | on a cookie string joined by `"; "`, the reader finds a name only if it is the first cookie, and returns `null` otherwise |
| `Cookie.SecondCookieIsMissed` | public/js/game.js:38-46 | on `theme=dark; sid=abc`, the reader as written returns `null` for `sid`, while the trimming reader returns `abc` |
| `Cookie.TrimmedFindsEveryCookie` | public/js/game.js:38-46 | the trimming reader returns the value of the first cookie with the name, wherever it stands, and `null` when there is none |
| `Cookie.TrimmedLookupIsFirstMatch` | public/js/game.js:38-46 | the trimming reader `ExtractCookieTrimmed` returns `null` exactly when no trimmed piece is named `name`, and otherwise the value of the first such piece |
| `Client.Page.constructor` | public/js/game.js:34-36 | the handler table holds exactly `pager.message`; nothing has been sent or invoked |
| `Client.Page.SendMessage` | public/js/game.js:21-24 | exactly one frame is sent: the arguments as an array in call order |
| `Client.Page.OnOpen` | public/js/game.js:10-13 | exactly one frame `['auth.hello', {}, sid]` is sent, sid being what `extract_cookie('sid')` as written returns |
| `Client.Page.OnOpenTrimmed` | public/js/game.js:10-13 | the same hello with the sid read by the corrected, trimming reader |
| `Client.Page.OnPagerClick` | public/js/game.js:27-33 | `['pager.send', {}, msg]` is sent if and only if the entered message is non-null and non-empty; otherwise nothing is sent |
| `Client.Page.OnMessage` | public/js/game.js:14-20 | the outcome is `DispatchSpec` of the table and the message (a TypeError when the head's key conversion throws, when the value found is not callable, or when the function found throws), and the invocation log grows by exactly the function that ran and returned, with its arguments |
| `Client.JsString` | public/js/game.js:16 | ToString of a parsed value throws exactly when it is, or an array holds, an object with its own `toString` member; a string converts to itself and any other object to `[object Object]` |
| `Client.PropertyKey` | public/js/game.js:16 | `handlers[undefined]` looks up `"undefined"`, and the key conversion throws exactly when ToString of the head throws |
| `Client.HandlerProperty` | public/js/game.js:16 | `handlers[key]` is the registered handler when there is one, else the Object.prototype method of that name, else Object.prototype itself (not callable) for `__proto__`, else undefined |
| `Client.Shifted` | public/js/game.js:16-18 | `json.shift()` leaves the elements after the head, and nothing for an empty array |
| `Client.DispatchTypeError` | public/js/game.js:15-18 | onmessage throws a TypeError if and only if the message is not an array, its head's key conversion throws, the head names an unregistered `__proto__`, or the function found throws on the remaining elements |
| `Client.DispatchAccessorDefiner` | public/js/game.js:16-18 | an unregistered `__defineGetter__` or `__defineSetter__` head always throws: the inherited method demands a callable accessor, and no parsed value is one |
| `Client.DispatchHarmlessBuiltin` | public/js/game.js:16-18 | an unregistered head naming an inherited method that converts no argument and defines nothing, such as `valueOf`, runs it with the remaining elements |
| `Client.DispatchOwnToString` | public/js/game.js:16 | a head object with its own `toString` member, such as `[{"toString": 0}]`, throws before any lookup |
| `Client.DispatchRegistered` | public/js/game.js:15-19 | a registered first element runs its handler with the remaining elements as arguments, in order, and throws exactly when the handler throws on them |
| `Client.DispatchUnknown` | public/js/game.js:16-17 | a name neither registered nor inherited from Object.prototype runs nothing |
| `Client.DispatchEmpty` | public/js/game.js:15-17 | an empty array looks up `undefined` and runs nothing |
| `Client.PagerMessageReachesHandler` | public/js/game.js:34-36 | the message `Pager.send` publishes reaches the page's `pager.message` handler with arguments (name, text); the handler's string concatenation throws exactly when the stored name is an object with its own `toString` |
| `Client.FrameKeepsOrder` | public/js/game.js:22-23 | a frame has one element per argument in order, and `undefined` becomes null |
| `Client.HelloFrameShape` | public/js/game.js:12 | the hello frame is `['auth.hello', {}, sid]`, with sid null when no cookie was found |

## Left out

- Byte-level JSON and UTF-8 are not modelled: `json.loads`, `json.dumps`, `.decode`/`.encode`, `JSON.parse` and `JSON.stringify` text. Stored records and messages are decoded values. A stored value is taken to be either a JSON object's text or not; the model does not decide which from raw bytes.
- Home.WithAttr: a stored record member `uid` with a non-integer value would rebind the Python attribute `uid`. The model keeps the id and files that member with the other extra attributes. `save` never writes such a member.
- Home.User.SetAttr: a record member `__dict__` holding a JSON object replaces the object's whole attribute dictionary in Python, dropping uid, level, name and email unless it holds them. The model files it as an extra attribute. Attributes are not modelled as optional, so the later failures this would cause are not modelled either.
- Home.User.SetAttr: a record member named after one of the class's methods, or after the injected `redis` handle, would shadow that attribute in Python, or meet whatever descriptor the injector installs there. The model stores it as a plain extra attribute, and the store handle is unaffected. Descriptors a base class of `User` may define are not part of this model.
- JSON numbers are integers on both sides: a stored member such as `"level": 1.5` (a Python float) cannot be represented, and neither can a fractional number in a message.
- Decimal.ParseInt: `int()` is modelled for ASCII bytes in base 10. Whitespace, sign and underscores follow Python. Non-ASCII input is not modelled.
- The Redis client protocol, the zerogw JSON websocket output and the dependency injector are not modelled. The store and the gateway are objects passed to constructors. Delivery of published messages to subscribers happens inside the gateway and is not modelled; the model keeps only the publish log. `handle_connect` subscribes with the bytes `b'pager'` (zenith/websock.py:39) while `Pager.send` publishes with the string `'pager'` (zenith/websock.py:15); the model uses one channel name for both, so whether the gateway treats the two as the same channel is outside the model.
- How the transport routes `auth.hello` and `pager.send` to `hello` and `Pager.send` is not modelled. So is resolving the `User` argument of `send`. Both happen in framework code.
- The DOM is not modelled: the status text, the pager text that the `pager.message` handler writes, `prompt`, and the WebSocket object. The cookie string and the prompt's result are parameters. `this` in `cmd.apply` is not modelled.
- Client.JsString: JavaScript numbers are modelled as integers. Exponent notation at or above 1e21, fractions and precision loss are not modelled.
- Client.Page: the handler table is filled once, as the page does. Assigning a handler named `__proto__` would change the table's prototype; this is not modelled.
- zenith/auth.py is not part of this model. Its handlers redirect unconditionally, and its validation is done by the form library.
- zenith/util.py and zenith/__main__.py are not part of this model. They hold template rendering and process wiring.
- Password hashing, identifier uniqueness, registration rollback and session expiry do not appear in the source files, so they are not modelled.
- The cooperative concurrency of the hub is not modelled.

## Findings

| source | as written | input that shows it | evidently intended | confidence | as-written member | corrected member |
|---|---|---|---|---|---|---|
| public/js/game.js:39-42 | `extract_cookie` splits `document.cookie` on `;` and compares each piece's name part verbatim. Browsers separate cookies with `"; "`, so every cookie after the first keeps a leading space, and its name never matches | `document.cookie == "theme=dark; sid=abc"`: `extract_cookie('sid')` returns `null`, and the hello is sent with a null sid | leading spaces removed before comparing, so that any cookie is found by name | medium, not executed | `Cookie.ExtractCookie` with `Cookie.OnlyFirstCookieMatches` and `Cookie.SecondCookieIsMissed` | `Cookie.ExtractCookieTrimmed` with `Cookie.TrimmedFindsEveryCookie`; `Client.Page.OnOpenTrimmed` is the page's hello with it |
