/**
  Session-backed user records (zenith/home.py): the User whose profile
  (level, name, email) lives in the store under z:user:<uid>, and the
  resolution of a request's `sid` cookie into a User through
  z:session:<sid>.
 */
module Home {
  import opened Wrappers
  import opened JsonValues
  import opened Decimal
  import opened KeyValue

  /** What a failed operation raises in the source. */
  datatype Error =
    | ValueError        // int() of a stored session value that is not a number
    | MalformedRecord   // json.loads(...).items() of a user record that is not a JSON object
    | AttributeRejected // setattr refusing a record member: TypeError or AttributeError

  const LoginPath := "/login"

  function SessionKey(sid: string): string { "z:session:" + sid }

  /** 'z:user:{}'.format(uid) in load and 'z:user:{:d}'.format(uid) in save: the same text for an int. */
  function UserKey(uid: int): string { "z:user:" + IntToString(uid) }

  /** The attributes of a User object: the four the class sets, and any other an update added. */
  datatype Profile = Profile(uid: int, level: Json, name: Json, email: Json, extra: map<string, Json>)

  /** A User straight out of __init__. */
  function Fresh(uid: int): Profile { Profile(uid, Num(1), Null, Null, map[]) }

  /** getattr(user, key), or None when the object has no such attribute. */
  function Attr(p: Profile, key: string): Option<Json>
  {
    if key == "uid" then Some(Num(p.uid))
    else if key == "level" then Some(p.level)
    else if key == "name" then Some(p.name)
    else if key == "email" then Some(p.email)
    else Get(p.extra, key)
  }

  /** setattr(user, key, v); a non-integer `uid` is kept aside and leaves the id alone. */
  function WithAttr(p: Profile, key: string, v: Json): Profile
  {
    if key == "level" then p.(level := v)
    else if key == "name" then p.(name := v)
    else if key == "email" then p.(email := v)
    else if key == "uid" && v.Num? then p.(uid := v.n)
    else p.(extra := p.extra[key := v])
  }

  /**
    The members setattr refuses on a plain object whatever JSON value they
    carry: `__class__` (the value is never a class), `__weakref__` (read-only),
    and `__dict__` unless the value is a JSON object.
   */
  predicate Rejects(key: string, v: Json)
  {
    key == "__class__" || key == "__weakref__" || (key == "__dict__" && !v.Obj?)
  }

  /** No member of the record is one setattr refuses. */
  predicate Accepted(fields: seq<(string, Json)>)
  {
    forall i :: 0 <= i < |fields| ==> !Rejects(fields[i].0, fields[i].1)
  }

  /** The attributes after a run of setattr calls, and what it raised, if anything. */
  datatype Loaded = Loaded(profile: Profile, error: Option<Error>)

  /**
    The setattr loop of load over a decoded record, member by member. A
    refused member raises: the members before it stay applied, the rest are
    never reached.
   */
  function ApplyRecord(p: Profile, fields: seq<(string, Json)>): Loaded
    decreases |fields|
  {
    if |fields| == 0 then Loaded(p, None)
    else
      var before := ApplyRecord(p, fields[..|fields| - 1]);
      var last := fields[|fields| - 1];
      if before.error.Some? then before
      else if Rejects(last.0, last.1) then Loaded(before.profile, Some(AttributeRejected))
      else Loaded(WithAttr(before.profile, last.0, last.1), None)
  }

  /** The value of the last member named key: the one a decoded dict keeps. */
  function LastValue(fields: seq<(string, Json)>, key: string): Option<Json>
    decreases |fields|
  {
    if |fields| == 0 then None
    else if fields[|fields| - 1].0 == key then Some(fields[|fields| - 1].1)
    else LastValue(fields[..|fields| - 1], key)
  }

  // ---------------------------------------------------------------------
  // The dict json.loads builds from an object's members

  /** The index of the first item whose key is k, or |items| when there is none. */
  function KeyIndex(items: seq<(string, Json)>, k: string): (i: nat)
    ensures i <= |items|
    ensures i < |items| ==> items[i].0 == k
    ensures forall j :: 0 <= j < i ==> items[j].0 != k
    decreases |items|
  {
    if |items| == 0 then 0 else if items[0].0 == k then 0 else 1 + KeyIndex(items[1..], k)
  }

  /** d[k] = v on a dict: an existing key keeps its position and takes the new value; a new key goes last. */
  function DictPut(items: seq<(string, Json)>, k: string, v: Json): (r: seq<(string, Json)>)
    ensures KeyIndex(items, k) < |items| ==> r == items[KeyIndex(items, k) := (k, v)]
    ensures KeyIndex(items, k) == |items| ==> r == items + [(k, v)]
    decreases |items|
  {
    if |items| == 0 then [(k, v)]
    else if items[0].0 == k then [(k, v)] + items[1..]
    else [items[0]] + DictPut(items[1..], k, v)
  }

  /** The items of the dict json.loads builds: members inserted in document order. */
  function DictItems(fields: seq<(string, Json)>): seq<(string, Json)>
    decreases |fields|
  {
    if |fields| == 0 then []
    else
      var last := fields[|fields| - 1];
      DictPut(DictItems(fields[..|fields| - 1]), last.0, last.1)
  }

  /** No key appears twice. */
  predicate DistinctKeys(items: seq<(string, Json)>)
  {
    forall i, j :: 0 <= i < j < |items| ==> items[i].0 != items[j].0
  }

  /** With distinct keys, the last value of a key is the value of its one item. */
  lemma {:induction false} LastValueOfDistinct(items: seq<(string, Json)>, i: nat)
    requires DistinctKeys(items) && i < |items|
    ensures LastValue(items, items[i].0) == Some(items[i].1)
    decreases |items|
  {
    if i < |items| - 1 {
      var prefix := items[..|items| - 1];
      assert prefix[i] == items[i];
      LastValueOfDistinct(prefix, i);
    }
  }

  /** A key that no item has has no last value. */
  lemma {:induction false} LastValueAbsent(items: seq<(string, Json)>, key: string)
    requires forall i :: 0 <= i < |items| ==> items[i].0 != key
    ensures LastValue(items, key).None?
    decreases |items|
  {
    if |items| > 0 {
      LastValueAbsent(items[..|items| - 1], key);
    }
  }

  /** d[k] = v keeps every key once. */
  lemma DictPutDistinct(items: seq<(string, Json)>, k: string, v: Json)
    requires DistinctKeys(items)
    ensures DistinctKeys(DictPut(items, k, v))
  {
    var idx := KeyIndex(items, k);
    var after := DictPut(items, k, v);
    if idx < |items| {
      assert forall j :: 0 <= j < |after| ==> after[j].0 == items[j].0;
    } else {
      assert forall j :: 0 <= j < |items| ==> after[j] == items[j];
    }
  }

  /** After d[k] = v, k has the value v and every other key keeps its value. */
  lemma DictPutLastValue(items: seq<(string, Json)>, k: string, v: Json, key: string)
    requires DistinctKeys(items)
    ensures LastValue(DictPut(items, k, v), key) == if key == k then Some(v) else LastValue(items, key)
  {
    var idx := KeyIndex(items, k);
    var after := DictPut(items, k, v);
    DictPutDistinct(items, k, v);
    var j := KeyIndex(after, key);
    if key == k {
      assert after[if idx < |items| then idx else |items|].0 == k;
      LastValueOfDistinct(after, j);
    } else if idx == |items| {
      assert after[..|after| - 1] == items;
    } else if j < |after| {
      LastValueOfDistinct(after, j);
      assert items[j] == after[j];
      LastValueOfDistinct(items, j);
    } else {
      LastValueAbsent(after, key);
      assert forall i :: 0 <= i < |items| ==> items[i].0 != key by {
        forall i | 0 <= i < |items| ensures items[i].0 != key {
          if i != idx { assert items[i] == after[i]; }
        }
      }
      LastValueAbsent(items, key);
    }
  }

  /**
    The dict keeps each key once, and for each key the value of the key's
    last member: a repeated member changes the value but not the position.
   */
  lemma {:induction false} DictItemsLastValue(fields: seq<(string, Json)>, key: string)
    ensures DistinctKeys(DictItems(fields))
    ensures LastValue(DictItems(fields), key) == LastValue(fields, key)
    decreases |fields|
  {
    if |fields| > 0 {
      var prefix := fields[..|fields| - 1];
      var (k, v) := fields[|fields| - 1];
      DictItemsLastValue(prefix, key);
      DictPutDistinct(DictItems(prefix), k, v);
      DictPutLastValue(DictItems(prefix), k, v, key);
    }
  }

  /** d[k] = v with a key the dict does not hold appends it. */
  lemma DictPutNewKey(items: seq<(string, Json)>, k: string, v: Json)
    requires forall j :: 0 <= j < |items| ==> items[j].0 != k
    ensures DictPut(items, k, v) == items + [(k, v)]
  {
    assert KeyIndex(items, k) == |items|;
  }

  /** Members with distinct keys make a dict holding exactly them, in the same order. */
  lemma {:induction false} DictItemsOfDistinct(fields: seq<(string, Json)>)
    requires DistinctKeys(fields)
    ensures DictItems(fields) == fields
    decreases |fields|
  {
    if |fields| > 0 {
      var prefix := fields[..|fields| - 1];
      var last := fields[|fields| - 1];
      assert fields == prefix + [last];
      assert DistinctKeys(prefix) by {
        forall i, j | 0 <= i < j < |prefix| ensures prefix[i].0 != prefix[j].0 {
          assert prefix[i] == fields[i] && prefix[j] == fields[j];
        }
      }
      DictItemsOfDistinct(prefix);
      assert forall j :: 0 <= j < |prefix| ==> prefix[j].0 != last.0 by {
        forall j | 0 <= j < |prefix| ensures prefix[j].0 != last.0 {
          assert prefix[j] == fields[j];
        }
      }
      DictPutNewKey(prefix, last.0, last.1);
    }
  }

  /** What load does to a User whose attributes are p, given the store's contents. */
  function LoadSpec(p: Profile, data: map<string, Value>): Loaded
  {
    var key := UserKey(p.uid);
    if key !in data || !Truthy(data[key]) then Loaded(p, None)
    else
      match data[key]
      case Raw(_) => Loaded(p, Some(MalformedRecord))
      case Record(fields) => ApplyRecord(p, DictItems(fields))
  }

  /** The value save writes: json.dumps({'level': ..., 'name': ..., 'email': ...}). */
  function SavedRecord(p: Profile): Value
  {
    Record([("level", p.level), ("name", p.name), ("email", p.email)])
  }

  /** The store after save. */
  function SaveSpec(p: Profile, data: map<string, Value>): map<string, Value>
  {
    data[UserKey(p.uid) := SavedRecord(p)]
  }

  /** int(v) of a stored session value. */
  function SessionUid(v: Value): Option<int>
  {
    match v
    case Raw(text) => ParseInt(text)
    case Record(_) => None
  }

  /** The three ways User.create ends: a redirect, a loaded user, or an exception. */
  datatype CreateOutcome<U> = Redirect(location: string) | Authenticated(user: U) | Raised(error: Error)

  /** What User.create yields for a request's cookies and the store's contents. */
  function CreateSpec(cookies: map<string, string>, data: map<string, Value>): CreateOutcome<Profile>
  {
    if "sid" !in cookies then Redirect(LoginPath)
    else
      match Get(data, SessionKey(cookies["sid"]))
      case None => Redirect(LoginPath)
      case Some(v) =>
        match SessionUid(v)
        case None => Raised(ValueError)
        case Some(uid) =>
          match LoadSpec(Fresh(uid), data)
          case Loaded(p, None) => Authenticated(p)
          case Loaded(_, Some(e)) => Raised(e)
  }

  class User {
    const store: Store
    var uid: int
    var level: Json
    var name: Json
    var email: Json
    var extra: map<string, Json>

    function View(): Profile
      reads this
    {
      Profile(uid, level, name, email, extra)
    }

    constructor (uid: int, store: Store)
      ensures this.store == store
      ensures this.uid == uid && level == Num(1) && name == Null && email == Null && extra == map[]
      ensures View() == Fresh(uid)
    {
      this.store := store;
      this.uid := uid;
      level := Num(1);
      name := Null;
      email := Null;
      extra := map[];
    }

    /** setattr(self, key, v): raises, changing nothing, for a member it refuses. */
    method SetAttr(key: string, v: Json) returns (err: Option<Error>)
      modifies this
      ensures err.Some? <==> Rejects(key, v)
      ensures err.Some? ==> err == Some(AttributeRejected) && View() == old(View())
      ensures err.None? ==> View() == WithAttr(old(View()), key, v)
    {
      err := None;
      if Rejects(key, v) {
        return Some(AttributeRejected);
      }
      if key == "level" {
        level := v;
      } else if key == "name" {
        name := v;
      } else if key == "email" {
        email := v;
      } else if key == "uid" && v.Num? {
        uid := v.n;
      } else {
        extra := extra[key := v];
      }
    }

    /**
      Reads z:user:<uid>; when the value is non-empty, decodes it and copies
      every member onto this object. A value that does not decode to an
      object raises before anything is copied; a member setattr refuses
      raises after the members before it were copied.
     */
    method Load() returns (err: Option<Error>)
      modifies this
      ensures LoadSpec(old(View()), store.data) == Loaded(View(), err)
    {
      var data := store.Lookup(UserKey(uid));
      if data.None? || !Truthy(data.value) {
        return None;
      }
      match data.value
      case Raw(_) =>
        return Some(MalformedRecord);
      case Record(fields) =>
        err := ApplyFields(DictItems(fields));
    }

    /** The setattr loop of load: each stored field in turn, stopping at the first one refused. */
    method ApplyFields(fields: seq<(string, Json)>) returns (err: Option<Error>)
      modifies this
      ensures ApplyRecord(old(View()), fields) == Loaded(View(), err)
    {
      var i := 0;
      while i < |fields|
        invariant 0 <= i <= |fields|
        invariant ApplyRecord(old(View()), fields[..i]) == Loaded(View(), None)
      {
        assert fields[..i + 1][..i] == fields[..i];
        err := SetAttr(fields[i].0, fields[i].1);
        if err.Some? {
          ErrorPersists(old(View()), fields, i + 1);
          return;
        }
        i := i + 1;
      }
      assert fields[..i] == fields;
      return None;
    }

    /** Overwrites z:user:<uid> with the record of level, name and email. */
    method Save()
      modifies store
      ensures store.data == SaveSpec(View(), old(store.data))
    {
      store.Set(UserKey(uid), SavedRecord(View()));
    }

    /** User.create: from the request's cookies to a loaded User, or a redirect to /login. */
    static method Create(cookies: map<string, string>, store: Store) returns (r: CreateOutcome<User>)
      ensures match r
        case Authenticated(u) =>
          fresh(u) && u.store == store && CreateSpec(cookies, store.data) == Authenticated(u.View())
        case Redirect(location) => CreateSpec(cookies, store.data) == Redirect(location)
        case Raised(e) => CreateSpec(cookies, store.data) == Raised(e)
    {
      if "sid" !in cookies {
        return Redirect(LoginPath);
      }
      var stored := store.Lookup(SessionKey(cookies["sid"]));
      if stored.None? {
        return Redirect(LoginPath);
      }
      var uid := SessionUid(stored.value);
      if uid.None? {
        return Raised(ValueError);
      }
      var user := new User(uid.value, store);
      var err := user.Load();
      if err.Some? {
        return Raised(err.value);
      }
      return Authenticated(user);
    }
  }

  // ---------------------------------------------------------------------
  // Properties of create

  /** Without a sid cookie, create redirects to /login whatever the store holds. */
  lemma CreateWithoutSid(cookies: map<string, string>, data: map<string, Value>, other: map<string, Value>)
    requires "sid" !in cookies
    ensures CreateSpec(cookies, data) == Redirect(LoginPath)
    ensures CreateSpec(cookies, data) == CreateSpec(cookies, other)
  {
  }

  /** A sid whose session key is absent from the store redirects to /login. */
  lemma CreateUnknownSession(cookies: map<string, string>, data: map<string, Value>)
    requires "sid" in cookies && SessionKey(cookies["sid"]) !in data
    ensures CreateSpec(cookies, data) == Redirect(LoginPath)
  {
  }

  /** A present but empty session value is not a redirect: int(b'') raises. */
  lemma CreateEmptySession(cookies: map<string, string>, data: map<string, Value>)
    requires "sid" in cookies && SessionKey(cookies["sid"]) in data
    requires data[SessionKey(cookies["sid"])] == Raw("")
    ensures CreateSpec(cookies, data) == Raised(ValueError)
  {
    ParseIntEmpty();
  }

  /** A sid that resolves to uid never redirects; with no user record the result is a fresh User of that uid. */
  lemma CreateResolved(cookies: map<string, string>, data: map<string, Value>, uid: int)
    requires "sid" in cookies && SessionKey(cookies["sid"]) in data
    requires SessionUid(data[SessionKey(cookies["sid"])]) == Some(uid)
    ensures !CreateSpec(cookies, data).Redirect?
    ensures UserKey(uid) !in data ==> CreateSpec(cookies, data) == Authenticated(Fresh(uid))
  {
  }

  /**
    A sid that resolves to uid, with a decoded user record: the loaded User
    has that uid unless the record itself carries `uid`, and its level, name
    and email are the record's where the record has them.
   */
  lemma CreateResolvedWithRecord(cookies: map<string, string>, data: map<string, Value>, uid: int, key: string)
    requires "sid" in cookies && SessionKey(cookies["sid"]) in data
    requires SessionUid(data[SessionKey(cookies["sid"])]) == Some(uid)
    requires UserKey(uid) in data && data[UserKey(uid)].Record?
    requires key == "uid" || key == "level" || key == "name" || key == "email"
    requires Accepted(DictItems(data[UserKey(uid)].fields))
    ensures CreateSpec(cookies, data) == Authenticated(ApplyRecord(Fresh(uid), DictItems(data[UserKey(uid)].fields)).profile)
    ensures LastValue(data[UserKey(uid)].fields, "uid").None? ==> CreateSpec(cookies, data).user.uid == uid
    ensures key != "uid" && LastValue(data[UserKey(uid)].fields, key).Some? ==>
      Attr(CreateSpec(cookies, data).user, key) == LastValue(data[UserKey(uid)].fields, key)
  {
    var fields := data[UserKey(uid)].fields;
    var items := DictItems(fields);
    ApplyRecordAccepted(Fresh(uid), items);
    assert LoadSpec(Fresh(uid), data) == ApplyRecord(Fresh(uid), items);
    if LastValue(fields, "uid").None? {
      DictItemsLastValue(fields, "uid");
      ApplyRecordAttr(Fresh(uid), items, "uid");
    }
    if key != "uid" {
      DictItemsLastValue(fields, key);
      ApplyRecordAttr(Fresh(uid), items, key);
    }
  }

  // ---------------------------------------------------------------------
  // Properties of load

  /** A record with no refused member is applied to the end without raising. */
  lemma {:induction false} ApplyRecordAccepted(p: Profile, fields: seq<(string, Json)>)
    requires Accepted(fields)
    ensures ApplyRecord(p, fields).error.None?
    decreases |fields|
  {
    if |fields| > 0 {
      var prefix := fields[..|fields| - 1];
      assert forall i :: 0 <= i < |prefix| ==> prefix[i] == fields[i];
      ApplyRecordAccepted(p, prefix);
    }
  }

  /** Once a member has been refused, the members after it change nothing. */
  lemma {:induction false} ErrorPersists(p: Profile, fields: seq<(string, Json)>, j: nat)
    requires j <= |fields| && ApplyRecord(p, fields[..j]).error.Some?
    ensures ApplyRecord(p, fields) == ApplyRecord(p, fields[..j])
    decreases |fields|
  {
    if j == |fields| {
      assert fields[..j] == fields;
    } else {
      var prefix := fields[..|fields| - 1];
      assert prefix[..j] == fields[..j];
      ErrorPersists(p, prefix, j);
    }
  }

  /**
    The first refused member, at k, raises: the members before it are
    applied and the members after it are not.
   */
  lemma {:induction false} ApplyRecordStopsAt(p: Profile, fields: seq<(string, Json)>, k: nat)
    requires k < |fields| && Rejects(fields[k].0, fields[k].1)
    requires Accepted(fields[..k])
    ensures ApplyRecord(p, fields) == Loaded(ApplyRecord(p, fields[..k]).profile, Some(AttributeRejected))
    ensures ApplyRecord(p, fields[..k]).error.None?
    decreases |fields|
  {
    ApplyRecordAccepted(p, fields[..k]);
    if k == |fields| - 1 {
      assert fields[..|fields| - 1] == fields[..k];
    } else {
      var prefix := fields[..|fields| - 1];
      assert prefix[..k] == fields[..k];
      ApplyRecordStopsAt(p, prefix, k);
    }
  }

  /** The setattr loop: a member present in the record wins, every other attribute keeps its value. */
  lemma {:induction false} ApplyRecordAttr(p: Profile, fields: seq<(string, Json)>, key: string)
    requires Accepted(fields)
    requires key == "uid" && LastValue(fields, key).Some? ==> LastValue(fields, key).value.Num?
    ensures ApplyRecord(p, fields).error.None?
    ensures Attr(ApplyRecord(p, fields).profile, key) ==
      if LastValue(fields, key).Some? then LastValue(fields, key) else Attr(p, key)
    decreases |fields|
  {
    if |fields| > 0 {
      var prefix := fields[..|fields| - 1];
      var last := fields[|fields| - 1];
      assert forall i :: 0 <= i < |prefix| ==> prefix[i] == fields[i];
      ApplyRecordAccepted(p, prefix);
      if last.0 != key {
        ApplyRecordAttr(p, prefix, key);
      }
    }
  }

  /** No record, or an empty one, leaves every attribute as it was. */
  lemma LoadAbsentOrEmpty(p: Profile, data: map<string, Value>)
    requires UserKey(p.uid) !in data || data[UserKey(p.uid)] == Raw("")
    ensures LoadSpec(p, data) == Loaded(p, None)
  {
  }

  /** A non-empty value that is not a JSON object raises and changes nothing. */
  lemma LoadMalformed(p: Profile, data: map<string, Value>)
    requires UserKey(p.uid) in data && data[UserKey(p.uid)].Raw? && data[UserKey(p.uid)].text != ""
    ensures LoadSpec(p, data) == Loaded(p, Some(MalformedRecord))
  {
  }

  /**
    A record whose dict has its first refused item at k: load raises with
    the items before k copied onto the object and the rest not.
   */
  lemma LoadStopsAtRefusedMember(p: Profile, data: map<string, Value>, k: nat)
    requires UserKey(p.uid) in data && data[UserKey(p.uid)].Record?
    requires var items := DictItems(data[UserKey(p.uid)].fields);
      k < |items| && Rejects(items[k].0, items[k].1) && Accepted(items[..k])
    ensures var items := DictItems(data[UserKey(p.uid)].fields);
      LoadSpec(p, data) == Loaded(ApplyRecord(p, items[..k]).profile, Some(AttributeRejected))
  {
    ApplyRecordStopsAt(p, DictItems(data[UserKey(p.uid)].fields), k);
  }

  /**
    A repeated key is applied at its first position with its last value:
    {"level": 2, "__class__": 0, "level": 3} sets level to 3 and then raises.
   */
  lemma LoadRepeatedKey(p: Profile, data: map<string, Value>)
    requires UserKey(p.uid) in data
    requires data[UserKey(p.uid)] == Record([("level", Num(2)), ("__class__", Num(0)), ("level", Num(3))])
    ensures LoadSpec(p, data) == Loaded(p.(level := Num(3)), Some(AttributeRejected))
  {
    RepeatedKeyItems();
    ApplyRepeatedKeyItems(p);
    assert LoadSpec(p, data) == ApplyRecord(p, DictItems(data[UserKey(p.uid)].fields));
  }

  /** Applying {"level": 3, "__class__": 0} sets level and then refuses `__class__`. */
  lemma ApplyRepeatedKeyItems(p: Profile)
    ensures ApplyRecord(p, [("level", Num(3)), ("__class__", Num(0))]) == Loaded(p.(level := Num(3)), Some(AttributeRejected))
  {
    var items := [("level", Num(3)), ("__class__", Num(0))];
    assert items[..1][..0] == [] && items[..2][..1] == items[..1] && items[..2] == items;
    assert ApplyRecord(p, items[..1]) == Loaded(p.(level := Num(3)), None);
  }

  /** The dict of {"level": 2, "__class__": 0, "level": 3} is {"level": 3, "__class__": 0}. */
  lemma RepeatedKeyItems()
    ensures DictItems([("level", Num(2)), ("__class__", Num(0)), ("level", Num(3))]) == [("level", Num(3)), ("__class__", Num(0))]
  {
    var fields := [("level", Num(2)), ("__class__", Num(0)), ("level", Num(3))];
    var first := fields[..2];
    assert first == [("level", Num(2)), ("__class__", Num(0))];
    DictItemsOfDistinct(first);
    assert KeyIndex(first, "level") == 0;
    assert DictItems(fields) == DictPut(first, "level", Num(3));
  }

  /** Load copies every member of a stored record and keeps every other attribute. */
  lemma LoadCopiesFields(p: Profile, data: map<string, Value>, key: string)
    requires UserKey(p.uid) in data && data[UserKey(p.uid)].Record?
    requires Accepted(DictItems(data[UserKey(p.uid)].fields))
    requires key == "uid" && LastValue(data[UserKey(p.uid)].fields, key).Some? ==>
      LastValue(data[UserKey(p.uid)].fields, key).value.Num?
    ensures LoadSpec(p, data).error.None?
    ensures var fields := data[UserKey(p.uid)].fields;
      Attr(LoadSpec(p, data).profile, key) ==
        if LastValue(fields, key).Some? then LastValue(fields, key) else Attr(p, key)
  {
    DictItemsLastValue(data[UserKey(p.uid)].fields, key);
    ApplyRecordAttr(p, DictItems(data[UserKey(p.uid)].fields), key);
  }

  // ---------------------------------------------------------------------
  // Properties of save

  /** Save writes one key, z:user:<uid>, with a full record of level, name and email. */
  lemma SaveTouchesOneKey(p: Profile, data: map<string, Value>)
    ensures SaveSpec(p, data).Keys == data.Keys + {UserKey(p.uid)}
    ensures SaveSpec(p, data)[UserKey(p.uid)] == Record([("level", p.level), ("name", p.name), ("email", p.email)])
    ensures forall k :: k in data && k != UserKey(p.uid) ==> SaveSpec(p, data)[k] == data[k]
  {
  }

  /** Save then load on a User with the same uid restores level, name and email. */
  lemma SaveLoadRoundTrip(p: Profile, q: Profile, data: map<string, Value>)
    requires p.uid == q.uid
    ensures LoadSpec(q, SaveSpec(p, data)) == Loaded(q.(level := p.level, name := p.name, email := p.email), None)
  {
    SavedRecordIsItsDict(p);
    ApplySavedRecord(p, q);
  }

  /** The record save writes has distinct keys, so its dict is the record itself. */
  lemma SavedRecordIsItsDict(p: Profile)
    ensures DictItems(SavedRecord(p).fields) == SavedRecord(p).fields
  {
    var fields := SavedRecord(p).fields;
    assert DistinctKeys(fields) by {
      assert fields[0].0 == "level" && fields[1].0 == "name" && fields[2].0 == "email";
    }
    DictItemsOfDistinct(fields);
  }

  /** Applying the saved record sets level, name and email and raises nothing. */
  lemma ApplySavedRecord(p: Profile, q: Profile)
    ensures ApplyRecord(q, SavedRecord(p).fields) == Loaded(q.(level := p.level, name := p.name, email := p.email), None)
  {
    var fields := SavedRecord(p).fields;
    assert fields[..1][..0] == [] && fields[..2][..1] == fields[..1] && fields[..3] == fields;
    assert ApplyRecord(q, fields[..1]) == Loaded(q.(level := p.level), None);
    assert fields[..3][..2] == fields[..2];
    assert ApplyRecord(q, fields[..2]) == Loaded(q.(level := p.level, name := p.name), None);
  }

  /** In particular a fresh User of the saved uid gets back exactly what was saved. */
  lemma SaveThenLoadFresh(p: Profile, data: map<string, Value>)
    ensures LoadSpec(Fresh(p.uid), SaveSpec(p, data)) == Loaded(Profile(p.uid, p.level, p.name, p.email, map[]), None)
  {
    SaveLoadRoundTrip(p, Fresh(p.uid), data);
  }

  /** Saving one user does not change what load gives another. */
  lemma SaveKeepsOtherUsers(p: Profile, q: Profile, data: map<string, Value>)
    requires p.uid != q.uid
    ensures LoadSpec(q, SaveSpec(p, data)) == LoadSpec(q, data)
  {
    if UserKey(p.uid) == UserKey(q.uid) {
      var a, b := IntToString(p.uid), IntToString(q.uid);
      assert a == UserKey(p.uid)[7..] && b == UserKey(q.uid)[7..];
      IntToStringInjective(p.uid, q.uid);
    }
  }

  /** Saving a user never changes a session: the two key spaces are disjoint. */
  lemma SaveKeepsSessions(p: Profile, data: map<string, Value>)
    ensures forall sid :: Get(SaveSpec(p, data), SessionKey(sid)) == Get(data, SessionKey(sid))
  {
    forall sid ensures SessionKey(sid) != UserKey(p.uid) {
      assert SessionKey(sid)[2] == 's';
      assert UserKey(p.uid)[2] == 'u';
    }
  }
}
