/**
  The browser client (public/js/game.js) apart from the DOM: the handler
  table, the onmessage dispatcher, send_message framing, the hello sent on
  open and the pager button.
 */
module Client {
  import opened Wrappers
  import opened JsonValues
  import opened Decimal
  import opened Cookie
  import Websock

  /** The one handler the page registers, under 'pager.message' (its DOM update is not modelled). */
  datatype Handler = ShowPagerMessage

  const PagerMessageName := "pager.message"

  /** Methods every object inherits from Object.prototype: `handlers[key]` finds them too. */
  const ObjectPrototypeMethods: set<string> := {
    "constructor", "hasOwnProperty", "isPrototypeOf", "propertyIsEnumerable",
    "toLocaleString", "toString", "valueOf",
    "__defineGetter__", "__defineSetter__", "__lookupGetter__", "__lookupSetter__"
  }

  /** Inherited methods that convert their first argument to a property key. */
  const KeyTakingMethods: set<string> := {
    "hasOwnProperty", "propertyIsEnumerable", "__lookupGetter__", "__lookupSetter__"
  }

  /** Inherited methods that throw unless their second argument is callable, which no parsed value is. */
  const AccessorDefiners: set<string> := {"__defineGetter__", "__defineSetter__"}

  /** A function `handlers[key]` yields. */
  datatype Target = Registered(handler: Handler) | Inherited(builtin: string)

  /** What `handlers[key]` yields: a function, Object.prototype itself (truthy but not callable), or undefined. */
  datatype Property = Function(target: Target) | NotCallable | Missing

  /** What onmessage does with one parsed message. */
  datatype Dispatch =
    | Invoke(target: Target, args: seq<Json>)   // cmd.apply(this, json) runs and returns
    | Ignore                                    // handlers[key] is undefined
    | TypeError                                 // onmessage throws, before or inside the call

  /** The object has a member of its own named `toString`. */
  predicate HasOwnToString(members: seq<(string, Json)>)
  {
    exists i :: 0 <= i < |members| && members[i].0 == "toString"
  }

  /**
    Whether ToString of a parsed JSON value throws a TypeError: an object
    with its own `toString` member (never callable, and its `valueOf` gives
    back the object itself), on its own or anywhere inside an array.
   */
  predicate ToStringThrows(v: Json)
  {
    match v
    case Obj(members) => HasOwnToString(members)
    case Arr(items) => exists i :: 0 <= i < |items| && ToStringThrows(items[i])
    case _ => false
  }

  /** JavaScript's ToString of a JSON value (integers below 1e21 only); None when it throws. */
  function JsString(v: Json): (r: Option<string>)
    ensures r.None? <==> ToStringThrows(v)
    ensures v.Str? ==> r == Some(v.s)
    ensures v.Obj? && r.Some? ==> r.value == "[object Object]"
    decreases v, 1
  {
    match v
    case Null => Some("null")
    case Bool(b) => Some(if b then "true" else "false")
    case Num(n) => Some(IntToString(n))
    case Str(s) => Some(s)
    case Arr(items) => JoinElements(items, v)
    case Obj(members) => if HasOwnToString(members) then None else Some("[object Object]")
  }

  /** Array.prototype.join(','): null elements become empty strings; an element that throws makes it throw. */
  function JoinElements(items: seq<Json>, ghost whole: Json): (r: Option<string>)
    requires forall i :: 0 <= i < |items| ==> items[i] < whole
    ensures r.None? <==> exists i :: 0 <= i < |items| && ToStringThrows(items[i])
    decreases whole, 0, |items|
  {
    if |items| == 0 then Some("")
    else
      var first := if items[0].Null? then Some("") else JsString(items[0]);
      if |items| == 1 then first
      else
        var rest := JoinElements(items[1..], whole);
        assert forall i :: 0 < i < |items| ==> items[i] == items[1..][i - 1];
        if first.None? || rest.None? then None else Some(first.value + "," + rest.value)
  }

  /** The property key `handlers[value]` converts a value to; None when the conversion throws. */
  function PropertyKey(v: JsValue): (r: Option<string>)
    ensures v.Undefined? ==> r == Some("undefined")
    ensures r.None? <==> v.Defined? && ToStringThrows(v.value)
  {
    match v
    case Undefined => Some("undefined")
    case Defined(j) => JsString(j)
  }

  /** `handlers[key]`: an own handler first, then what the handler table inherits from Object.prototype. */
  function HandlerProperty(handlers: map<string, Handler>, key: string): (r: Property)
    ensures r.Function? && r.target.Registered? <==> key in handlers
    ensures r.Function? && r.target.Inherited? <==> key !in handlers && key in ObjectPrototypeMethods
    ensures r.NotCallable? <==> key !in handlers && key == "__proto__"
  {
    if key in handlers then Function(Registered(handlers[key]))
    else if key in ObjectPrototypeMethods then Function(Inherited(key))
    else if key == "__proto__" then NotCallable
    else Missing
  }

  /** The argument at i exists and converting it to a string throws; a missing argument is undefined, which converts. */
  predicate ArgThrows(args: seq<Json>, i: nat)
  {
    i < |args| && ToStringThrows(args[i])
  }

  /**
    Whether applying the function to the arguments throws a TypeError: the
    pager handler concatenates its first two arguments into a string, the
    key-taking methods convert their first, and the accessor definers
    always throw.
   */
  predicate CallThrows(target: Target, args: seq<Json>)
  {
    match target
    case Registered(ShowPagerMessage) => ArgThrows(args, 0) || ArgThrows(args, 1)
    case Inherited(name) => name in AccessorDefiners || (name in KeyTakingMethods && ArgThrows(args, 0))
  }

  /** What `json.shift()` leaves behind: the elements after the head. */
  function Shifted(items: seq<Json>): (r: seq<Json>)
    ensures |items| > 0 ==> [items[0]] + r == items
    ensures |items| == 0 ==> r == []
  {
    if |items| == 0 then [] else items[1..]
  }

  /** What onmessage does: shift off the head, look it up, apply the rest when callable. */
  function DispatchSpec(handlers: map<string, Handler>, data: Json): Dispatch
  {
    match data
    case Arr(items) =>
      var head := if |items| == 0 then Undefined else Defined(items[0]);
      var args := Shifted(items);
      (match PropertyKey(head)
       case None => TypeError
       case Some(key) =>
         (match HandlerProperty(handlers, key)
          case Function(target) => if CallThrows(target, args) then TypeError else Invoke(target, args)
          case NotCallable => TypeError
          case Missing => Ignore))
    case _ => TypeError
  }

  /** The JSON array send_message writes: JSON.stringify turns `undefined` elements into null. */
  function Frame(args: seq<JsValue>): Json
  {
    Arr(seq(|args|, i requires 0 <= i < |args| => if args[i].Defined? then args[i].value else Null))
  }

  function HelloFrame(sid: JsValue): Json
  {
    Frame([Defined(Str("auth.hello")), Defined(Obj([])), sid])
  }

  function PagerSendFrame(msg: string): Json
  {
    Frame([Defined(Str("pager.send")), Defined(Obj([])), Defined(Str(msg))])
  }

  /** The page's state that the program changes. */
  class Page {
    var handlers: map<string, Handler>
    var sent: seq<Json>                    // frames handed to conn.send, in order
    var calls: seq<(Target, seq<Json>)>    // functions onmessage applied and that returned, with their arguments

    constructor ()
      ensures handlers == map[PagerMessageName := ShowPagerMessage]
      ensures sent == [] && calls == []
    {
      handlers := map[PagerMessageName := ShowPagerMessage];
      sent := [];
      calls := [];
    }

    /** send_message(...args): one frame holding the arguments in call order. */
    method SendMessage(args: seq<JsValue>)
      modifies this
      ensures sent == old(sent) + [Frame(args)]
      ensures handlers == old(handlers) && calls == old(calls)
    {
      sent := sent + [Frame(args)];
    }

    /** conn.onopen: the hello handshake carrying the sid cookie, read by extract_cookie as written. */
    method OnOpen(cookie: string)
      modifies this
      ensures sent == old(sent) + [HelloFrame(CookieLookup(Split(cookie, ';'), "sid"))]
      ensures handlers == old(handlers) && calls == old(calls)
    {
      var sid := ExtractCookie(cookie, "sid");
      SendMessage([Defined(Str("auth.hello")), Defined(Obj([])), sid]);
    }

    /** conn.onopen with the corrected, trimming cookie reader. */
    method OnOpenTrimmed(cookie: string)
      modifies this
      ensures sent == old(sent) + [HelloFrame(ExtractCookieTrimmed(cookie, "sid"))]
      ensures handlers == old(handlers) && calls == old(calls)
    {
      SendMessage([Defined(Str("auth.hello")), Defined(Obj([])), ExtractCookieTrimmed(cookie, "sid")]);
    }

    /** The pager button: `entered` is what prompt returned (None for null). */
    method OnPagerClick(entered: Option<string>)
      modifies this
      ensures sent == old(sent) + if entered.Some? && entered.value != "" then [PagerSendFrame(entered.value)] else []
      ensures handlers == old(handlers) && calls == old(calls)
    {
      if entered.Some? && entered.value != "" {
        SendMessage([Defined(Str("pager.send")), Defined(Obj([])), Defined(Str(entered.value))]);
      }
    }

    /** conn.onmessage on an already parsed message. */
    method OnMessage(data: Json) returns (d: Dispatch)
      modifies this
      ensures d == DispatchSpec(handlers, data)
      ensures calls == old(calls) + if d.Invoke? then [(d.target, d.args)] else []
      ensures handlers == old(handlers) && sent == old(sent)
    {
      if !data.Arr? {
        return TypeError;
      }
      var json := data.items;
      var head: JsValue := Undefined;
      if |json| > 0 {
        head := Defined(json[0]);
        json := json[1..];
      }
      var converted := PropertyKey(head);
      if converted.None? {
        return TypeError;
      }
      var key := converted.value;
      var target: Target;
      if key in handlers {
        target := Registered(handlers[key]);
      } else if key in ObjectPrototypeMethods {
        target := Inherited(key);
      } else if key == "__proto__" {
        return TypeError;
      } else {
        return Ignore;
      }
      if CallThrows(target, json) {
        return TypeError;
      }
      d := Invoke(target, json);
      calls := calls + [(target, json)];
    }
  }

  // ---------------------------------------------------------------------
  // Properties of dispatch and framing

  /** A registered name runs its handler with the remaining elements, in order, unless the handler throws. */
  lemma DispatchRegistered(handlers: map<string, Handler>, name: string, args: seq<Json>)
    requires name in handlers
    ensures DispatchSpec(handlers, Arr([Str(name)] + args)) ==
      if CallThrows(Registered(handlers[name]), args) then TypeError else Invoke(Registered(handlers[name]), args)
  {
    assert ([Str(name)] + args)[1..] == args;
  }

  /** A name neither registered nor inherited from Object.prototype runs nothing. */
  lemma DispatchUnknown(handlers: map<string, Handler>, name: string, args: seq<Json>)
    requires name !in handlers && name !in ObjectPrototypeMethods && name != "__proto__"
    ensures DispatchSpec(handlers, Arr([Str(name)] + args)) == Ignore
  {
  }

  /**
    onmessage throws a TypeError exactly when the message is not an array,
    when converting its head to a property key throws, when the head names
    `__proto__` without a handler of that name (Object.prototype is not
    callable), or when the function found throws on the remaining elements.
   */
  lemma DispatchTypeError(handlers: map<string, Handler>, data: Json)
    ensures DispatchSpec(handlers, data) == TypeError <==>
      || !data.Arr?
      || (|data.items| > 0 && ToStringThrows(data.items[0]))
      || (var key := PropertyKey(if |data.items| == 0 then Undefined else Defined(data.items[0]));
          key.Some? &&
          (|| (key.value == "__proto__" && "__proto__" !in handlers)
           || (key.value in handlers && CallThrows(Registered(handlers[key.value]), Shifted(data.items)))
           || (key.value !in handlers && key.value in ObjectPrototypeMethods
               && CallThrows(Inherited(key.value), Shifted(data.items)))))
  {
    if data.Arr? && |data.items| > 0 {
      var k := PropertyKey(Defined(data.items[0]));
      assert k.None? <==> ToStringThrows(data.items[0]);
      if k.Some? && k.value == "__proto__" {
        assert "__proto__" !in ObjectPrototypeMethods;
      }
    }
  }

  /**
    A head naming `__defineGetter__` or `__defineSetter__`, with no handler of
    that name, always throws: the inherited method demands a callable accessor.
   */
  lemma DispatchAccessorDefiner(handlers: map<string, Handler>, name: string, args: seq<Json>)
    requires name in AccessorDefiners && name !in handlers
    ensures DispatchSpec(handlers, Arr([Str(name)] + args)) == TypeError
  {
    assert name in ObjectPrototypeMethods;
  }

  /** An inherited method that changes nothing and throws on nothing, such as valueOf, runs with any arguments. */
  lemma DispatchHarmlessBuiltin(handlers: map<string, Handler>, name: string, args: seq<Json>)
    requires name in ObjectPrototypeMethods - AccessorDefiners - KeyTakingMethods && name !in handlers
    ensures DispatchSpec(handlers, Arr([Str(name)] + args)) == Invoke(Inherited(name), args)
  {
    assert Shifted([Str(name)] + args) == args;
  }

  /** A head object with its own `toString`, such as [{"toString": 0}], throws before any lookup. */
  lemma DispatchOwnToString(handlers: map<string, Handler>, members: seq<(string, Json)>, v: Json, args: seq<Json>)
    requires ("toString", v) in members
    ensures DispatchSpec(handlers, Arr([Obj(members)] + args)) == TypeError
  {
    var i :| 0 <= i < |members| && members[i] == ("toString", v);
    assert HasOwnToString(members);
  }

  /** An empty array looks up "undefined", which the page never registers. */
  lemma DispatchEmpty()
    ensures DispatchSpec(map[PagerMessageName := ShowPagerMessage], Arr([])) == Ignore
  {
  }

  /**
    What Pager.send publishes reaches the page's pager handler with (name,
    text); a stored name that is an object with its own `toString` makes the
    handler's string concatenation throw.
   */
  lemma PagerMessageReachesHandler(name: Json, text: string)
    ensures DispatchSpec(map[PagerMessageName := ShowPagerMessage], Websock.PagerMessage(name, text)) ==
      if ToStringThrows(name) then TypeError else Invoke(Registered(ShowPagerMessage), [name, Str(text)])
  {
    var items := [Str("pager.message"), name, Str(text)];
    assert items[1..] == [name, Str(text)];
  }

  /** The frame keeps every argument in call order; `undefined` is sent as null. */
  lemma FrameKeepsOrder(args: seq<JsValue>)
    ensures Frame(args).Arr? && |Frame(args).items| == |args|
    ensures forall i :: 0 <= i < |args| && args[i].Defined? ==> Frame(args).items[i] == args[i].value
    ensures forall i :: 0 <= i < |args| && args[i].Undefined? ==> Frame(args).items[i] == Null
  {
  }

  /** The hello frame is ['auth.hello', {}, sid], sid being null when no cookie is found. */
  lemma HelloFrameShape(sid: JsValue)
    ensures HelloFrame(sid) == Arr([Str("auth.hello"), Obj([]), if sid.Defined? then sid.value else Null])
  {
  }
}
