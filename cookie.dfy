/**
  The client's cookie reader, extract_cookie (public/js/game.js): split
  document.cookie on ';', split each piece on '=' keeping at most two
  parts, and return the second part of the first piece whose first part is
  the wanted name; `null` when none is.
 */
module Cookie {
  import opened JsonValues

  /** String.prototype.split with a one-character separator and no limit. */
  function Split(s: string, sep: char): (parts: seq<string>)
    ensures |parts| >= 1
    ensures forall i :: 0 <= i < |parts| ==> sep !in parts[i]
    decreases |s|
  {
    if |s| == 0 then [""]
    else
      var rest := Split(s[1..], sep);
      if s[0] == sep then [""] + rest else [[s[0]] + rest[0]] + rest[1..]
  }

  /** String.prototype.split with a limit: the first `limit` parts. */
  function SplitLimit(s: string, sep: char, limit: nat): (parts: seq<string>)
    ensures |parts| <= limit && parts <= Split(s, sep)
    ensures |parts| < limit ==> parts == Split(s, sep)
  {
    var parts := Split(s, sep);
    if |parts| <= limit then parts else parts[..limit]
  }

  /** Array.prototype.join with a one-character separator. */
  function Join(parts: seq<string>, sep: char): string
    requires |parts| >= 1
    decreases |parts|
  {
    if |parts| == 1 then parts[0] else parts[0] + [sep] + Join(parts[1..], sep)
  }

  /** The index of the first c in s, or |s| when there is none. */
  function FirstIndex(s: string, c: char): (i: nat)
    ensures i <= |s|
    ensures i < |s| ==> s[i] == c
    ensures forall j :: 0 <= j < i ==> s[j] != c
    decreases |s|
  {
    if |s| == 0 then 0 else if s[0] == c then 0 else 1 + FirstIndex(s[1..], c)
  }

  /** The name part of a cookie piece: everything before its first '='. */
  function NamePart(piece: string): string
  {
    piece[..FirstIndex(piece, '=')]
  }

  /**
    The value extract_cookie returns for a matching piece: `undefined` when
    it has no '=', otherwise the text between its first and second '='.
   */
  function PieceValue(piece: string): JsValue
  {
    var i := FirstIndex(piece, '=');
    if i == |piece| then Undefined
    else
      var rest := piece[i + 1..];
      Defined(Str(rest[..FirstIndex(rest, '=')]))
  }

  /** The first piece whose name part is `name` decides; no such piece gives `null`. */
  function CookieLookup(pieces: seq<string>, name: string): JsValue
    decreases |pieces|
  {
    if |pieces| == 0 then Defined(Null)
    else if NamePart(pieces[0]) == name then PieceValue(pieces[0])
    else CookieLookup(pieces[1..], name)
  }

  /**
    extract_cookie(name) over document.cookie, as written: no whitespace is
    removed around the pieces.
   */
  method ExtractCookie(cookie: string, name: string) returns (r: JsValue)
    ensures r == CookieLookup(Split(cookie, ';'), name)
  {
    var lst := Split(cookie, ';');
    var i := 0;
    while i < |lst|
      invariant 0 <= i <= |lst|
      invariant CookieLookup(lst[i..], name) == CookieLookup(lst, name)
    {
      var pair := SplitLimit(lst[i], '=', 2);
      PairParts(lst[i]);
      if pair[0] == name {
        return if |pair| >= 2 then Defined(Str(pair[1])) else Undefined;
      }
      assert lst[i..][1..] == lst[i + 1..];
      i := i + 1;
    }
    return Defined(Null);
  }

  // ---------------------------------------------------------------------
  // Split

  lemma {:induction false} JoinSplit(s: string, sep: char)
    ensures Join(Split(s, sep), sep) == s
    decreases |s|
  {
    if |s| > 0 {
      JoinSplit(s[1..], sep);
      var rest := Split(s[1..], sep);
      if s[0] != sep && |rest| > 1 {
        assert ([[s[0]] + rest[0]] + rest[1..])[1..] == rest[1..];
      }
    }
  }

  /** Splitting a piece free of the separator followed by the separator. */
  lemma {:induction false} SplitAfterPiece(a: string, b: string, sep: char)
    requires sep !in a
    ensures Split(a + [sep] + b, sep) == [a] + Split(b, sep)
    decreases |a|
  {
    var s := a + [sep] + b;
    if |a| == 0 {
      assert s[1..] == b;
    } else {
      assert s[1..] == a[1..] + [sep] + b;
      SplitAfterPiece(a[1..], b, sep);
      assert [s[0]] + a[1..] == a;
    }
  }

  lemma {:induction false} SplitJoin(parts: seq<string>, sep: char)
    requires |parts| >= 1
    requires forall i :: 0 <= i < |parts| ==> sep !in parts[i]
    ensures Split(Join(parts, sep), sep) == parts
    decreases |parts|
  {
    if |parts| == 1 {
      SplitNoSeparator(parts[0], sep);
    } else {
      SplitJoin(parts[1..], sep);
      SplitAfterPiece(parts[0], Join(parts[1..], sep), sep);
    }
  }

  lemma {:induction false} SplitNoSeparator(s: string, sep: char)
    requires sep !in s
    ensures Split(s, sep) == [s]
    decreases |s|
  {
    if |s| > 0 {
      SplitNoSeparator(s[1..], sep);
      assert [s[0]] + s[1..] == s;
    }
  }

  /** The first part of a split ends at the first separator; the rest splits what follows it. */
  lemma {:induction false} SplitFirst(s: string, sep: char)
    ensures Split(s, sep)[0] == s[..FirstIndex(s, sep)]
    ensures FirstIndex(s, sep) == |s| ==> |Split(s, sep)| == 1
    ensures FirstIndex(s, sep) < |s| ==> Split(s, sep)[1..] == Split(s[FirstIndex(s, sep) + 1..], sep)
    decreases |s|
  {
    if |s| > 0 && s[0] != sep {
      SplitFirst(s[1..], sep);
      assert s[1..][..FirstIndex(s[1..], sep)] == s[1..FirstIndex(s, sep)];
      assert [s[0]] + s[1..FirstIndex(s, sep)] == s[..FirstIndex(s, sep)];
      if FirstIndex(s, sep) < |s| {
        assert s[1..][FirstIndex(s[1..], sep) + 1..] == s[FirstIndex(s, sep) + 1..];
      }
    }
  }

  /** `lst[i].split('=', 2)` gives the name part, then the value when there is one. */
  lemma PairParts(piece: string)
    ensures var pair := SplitLimit(piece, '=', 2);
      && 1 <= |pair| <= 2
      && pair[0] == NamePart(piece)
      && PieceValue(piece) == if |pair| >= 2 then Defined(Str(pair[1])) else Undefined
  {
    SplitFirst(piece, '=');
    var i := FirstIndex(piece, '=');
    if i < |piece| {
      SplitFirst(piece[i + 1..], '=');
    }
  }

  // ---------------------------------------------------------------------
  // What extract_cookie returns

  /** Piece k is the first piece named `name`. */
  predicate FirstNamed(pieces: seq<string>, name: string, k: int)
  {
    && 0 <= k < |pieces|
    && NamePart(pieces[k]) == name
    && forall j :: 0 <= j < k ==> NamePart(pieces[j]) != name
  }

  /** `null` exactly when no piece is named `name`; otherwise the first such piece's value. */
  lemma {:induction false} CookieLookupIsFirstMatch(pieces: seq<string>, name: string)
    ensures CookieLookup(pieces, name) == Defined(Null) <==>
      forall i :: 0 <= i < |pieces| ==> NamePart(pieces[i]) != name
    ensures forall k :: FirstNamed(pieces, name, k) ==> CookieLookup(pieces, name) == PieceValue(pieces[k])
    decreases |pieces|
  {
    if |pieces| > 0 {
      CookieLookupIsFirstMatch(pieces[1..], name);
      if NamePart(pieces[0]) != name {
        forall k | FirstNamed(pieces, name, k)
          ensures CookieLookup(pieces, name) == PieceValue(pieces[k])
        {
          assert pieces[1..][k - 1] == pieces[k];
          forall j | 0 <= j < k - 1 ensures NamePart(pieces[1..][j]) != name {
            assert pieces[1..][j] == pieces[j + 1];
          }
          assert FirstNamed(pieces[1..], name, k - 1);
        }
        if CookieLookup(pieces, name) != Defined(Null) {
          var i :| 0 <= i < |pieces[1..]| && NamePart(pieces[1..][i]) == name;
          assert pieces[i + 1] == pieces[1..][i];
        } else {
          forall i | 0 < i < |pieces| ensures NamePart(pieces[i]) != name {
            assert pieces[i] == pieces[1..][i - 1];
          }
        }
      }
    }
  }

  /** The name part of `n=rest` is `n` when `n` has no '='. */
  lemma NameOfPair(n: string, rest: string)
    requires '=' !in n
    ensures NamePart(n + "=" + rest) == n
  {
    var s := n + "=" + rest;
    assert s[|n|] == '=';
    assert FirstIndex(s, '=') == |n|;
  }

  /** The value is cut at a second '=': `n=v=rest` yields `v`. */
  lemma ValueStopsAtSecondEquals(n: string, v: string, rest: string)
    requires '=' !in n && '=' !in v
    ensures NamePart(n + "=" + v + "=" + rest) == n
    ensures PieceValue(n + "=" + v + "=" + rest) == Defined(Str(v))
  {
    var s := n + "=" + v + "=" + rest;
    assert s == n + "=" + (v + "=" + rest);
    NameOfPair(n, v + "=" + rest);
    var after := s[|n| + 1..];
    assert after == v + "=" + rest;
    NameOfPair(v, rest);
  }

  /** A piece with no '=' has itself as name and `undefined` as value. */
  lemma BarePieceIsUndefined(piece: string)
    requires '=' !in piece
    ensures NamePart(piece) == piece
    ensures PieceValue(piece) == Undefined
  {
  }

  /** No trimming: a piece that starts with a space never matches a name that does not. */
  lemma LeadingSpaceNeverMatches(piece: string, name: string)
    requires |piece| > 0 && piece[0] == ' '
    requires |name| == 0 || name[0] != ' '
    ensures NamePart(piece) != name
  {
    assert NamePart(piece)[0] == ' ';
  }

  /** The value is cut at a second '=': "sid=a=b" yields "a". */
  lemma ExampleSecondEquals()
    ensures CookieLookup(Split("sid=a=b", ';'), "sid") == Defined(Str("a"))
  {
    var s := "sid=a=b";
    SplitNoSeparator(s, ';');
    assert s == "sid" + "=" + "a" + "=" + "b";
    ValueStopsAtSecondEquals("sid", "a", "b");
  }

  /** A bare "sid" yields `undefined`, not `null`. */
  lemma ExampleBareName()
    ensures CookieLookup(Split("sid", ';'), "sid") == Undefined
  {
    SplitNoSeparator("sid", ';');
    BarePieceIsUndefined("sid");
  }

  // ---------------------------------------------------------------------
  // document.cookie as a browser writes it, and a reader that trims

  /** One cookie as the browser shows it: name=value. */
  function PairText(c: (string, string)): string { c.0 + "=" + c.1 }

  /** document.cookie for a list of cookies: the pairs joined by "; ". */
  function DocumentCookie(cookies: seq<(string, string)>): string
    requires |cookies| >= 1
    decreases |cookies|
  {
    if |cookies| == 1 then PairText(cookies[0])
    else PairText(cookies[0]) + "; " + DocumentCookie(cookies[1..])
  }

  /** A cookie whose name and value hold no ';' and no '=', and whose name does not start with a space. */
  predicate Plain(c: (string, string))
  {
    && ';' !in c.0 && '=' !in c.0 && ';' !in c.1 && '=' !in c.1
    && (|c.0| == 0 || c.0[0] != ' ')
  }

  /** A leading non-separator character joins the first piece. */
  lemma SplitConsChar(c: char, tail: string, sep: char)
    requires c != sep
    ensures Split([c] + tail, sep) == [[c] + Split(tail, sep)[0]] + Split(tail, sep)[1..]
  {
    assert ([c] + tail)[1..] == tail;
  }

  /** The pieces of first + ";" + " " + tail, in terms of the pieces of tail. */
  lemma PrependSpaced(first: string, pieces: seq<string>)
    requires |pieces| >= 1
    ensures var whole := [first] + ([[' '] + pieces[0]] + pieces[1..]);
      && |whole| == |pieces| + 1 && whole[0] == first && whole[1] == [' '] + pieces[0]
      && forall i :: 1 < i < |whole| ==> whole[i] == pieces[i - 1]
  {
  }

  /** The pieces document.cookie splits into: every piece after the first keeps a leading space. */
  lemma {:induction false} SplitDocumentCookie(cookies: seq<(string, string)>)
    requires |cookies| >= 1
    requires forall i :: 0 <= i < |cookies| ==> Plain(cookies[i])
    ensures |Split(DocumentCookie(cookies), ';')| == |cookies|
    ensures Split(DocumentCookie(cookies), ';')[0] == PairText(cookies[0])
    ensures forall i :: 0 < i < |cookies| ==> Split(DocumentCookie(cookies), ';')[i] == " " + PairText(cookies[i])
    decreases |cookies|
  {
    if |cookies| == 1 {
      SplitNoSeparator(PairText(cookies[0]), ';');
    } else {
      var first := PairText(cookies[0]);
      var rest := cookies[1..];
      assert forall i :: 0 <= i < |rest| ==> Plain(rest[i]) by {
        forall i | 0 <= i < |rest| ensures Plain(rest[i]) { assert rest[i] == cookies[i + 1]; }
      }
      SplitDocumentCookie(rest);
      var tail := DocumentCookie(rest);
      var restPieces := Split(tail, ';');
      assert DocumentCookie(cookies) == first + [';'] + ([' '] + tail);
      SplitAfterPiece(first, [' '] + tail, ';');
      SplitConsChar(' ', tail, ';');
      var whole := [first] + ([[' '] + restPieces[0]] + restPieces[1..]);
      assert Split(DocumentCookie(cookies), ';') == whole;
      PrependSpaced(first, restPieces);
      forall i | 0 < i < |cookies|
        ensures whole[i] == " " + PairText(cookies[i])
      {
        assert cookies[i] == rest[i - 1];
      }
    }
  }

  /** With browser-formatted cookies, the reader as written only ever sees the first one. */
  lemma OnlyFirstCookieMatches(cookies: seq<(string, string)>, name: string)
    requires |cookies| >= 1
    requires forall i :: 0 <= i < |cookies| ==> Plain(cookies[i])
    requires |name| == 0 || name[0] != ' '
    ensures CookieLookup(Split(DocumentCookie(cookies), ';'), name) ==
      if cookies[0].0 == name then Defined(Str(cookies[0].1)) else Defined(Null)
  {
    var pieces := Split(DocumentCookie(cookies), ';');
    SplitDocumentCookie(cookies);
    NameOfPair(cookies[0].0, cookies[0].1);
    SplitNoSeparator(cookies[0].1, '=');
    forall i | 0 < i < |pieces| ensures NamePart(pieces[i]) != name {
      LeadingSpaceNeverMatches(pieces[i], name);
    }
    CookieLookupIsFirstMatch(pieces, name);
    if cookies[0].0 == name {
      PieceValueOfPair(cookies[0]);
    }
  }

  lemma PieceValueOfPair(c: (string, string))
    requires Plain(c)
    ensures NamePart(PairText(c)) == c.0
    ensures PieceValue(PairText(c)) == Defined(Str(c.1))
  {
    NameOfPair(c.0, c.1);
    var s := PairText(c);
    assert FirstIndex(s, '=') == |c.0|;
    var rest := s[|c.0| + 1..];
    assert rest == c.1;
    assert FirstIndex(rest, '=') == |rest|;
    assert rest[..FirstIndex(rest, '=')] == c.1;
  }

  /** The failing case: a sid cookie that is not first is not found. */
  lemma SecondCookieIsMissed()
    ensures CookieLookup(Split(DocumentCookie([("theme", "dark"), ("sid", "abc")]), ';'), "sid") == Defined(Null)
    ensures ExtractCookieTrimmed(DocumentCookie([("theme", "dark"), ("sid", "abc")]), "sid") == Defined(Str("abc"))
  {
    var cookies := [("theme", "dark"), ("sid", "abc")];
    OnlyFirstCookieMatches(cookies, "sid");
    TrimmedFindsEveryCookie(cookies, "sid", 1);
  }

  /** Drops the spaces at the front of a piece. */
  function TrimStart(s: string): (r: string)
    ensures |r| == 0 || r[0] != ' '
    decreases |s|
  {
    if |s| > 0 && s[0] == ' ' then TrimStart(s[1..]) else s
  }

  function TrimPieces(pieces: seq<string>): (r: seq<string>)
    ensures |r| == |pieces|
    ensures forall i :: 0 <= i < |pieces| ==> r[i] == TrimStart(pieces[i])
  {
    seq(|pieces|, i requires 0 <= i < |pieces| => TrimStart(pieces[i]))
  }

  /** The pieces of a cookie string, each with its leading spaces removed. */
  function TrimmedPieces(cookie: string): seq<string>
  {
    TrimPieces(Split(cookie, ';'))
  }

  /** extract_cookie as evidently intended: each piece's leading spaces removed before comparing. */
  function ExtractCookieTrimmed(cookie: string, name: string): JsValue
  {
    CookieLookup(TrimmedPieces(cookie), name)
  }

  /**
    The trimming reader gives `null` exactly when no trimmed piece is named
    `name`, and otherwise the value of the first trimmed piece that is.
   */
  lemma TrimmedLookupIsFirstMatch(cookie: string, name: string)
    ensures ExtractCookieTrimmed(cookie, name) == Defined(Null) <==>
      forall i :: 0 <= i < |TrimmedPieces(cookie)| ==> NamePart(TrimmedPieces(cookie)[i]) != name
    ensures forall k :: FirstNamed(TrimmedPieces(cookie), name, k) ==>
      ExtractCookieTrimmed(cookie, name) == PieceValue(TrimmedPieces(cookie)[k])
  {
    CookieLookupIsFirstMatch(TrimmedPieces(cookie), name);
  }

  /** Trimmed, the pieces of document.cookie are exactly the name=value pairs. */
  lemma TrimmedDocumentPieces(cookies: seq<(string, string)>)
    requires |cookies| >= 1
    requires forall i :: 0 <= i < |cookies| ==> Plain(cookies[i])
    ensures |TrimmedPieces(DocumentCookie(cookies))| == |cookies|
    ensures forall i :: 0 <= i < |cookies| ==> TrimmedPieces(DocumentCookie(cookies))[i] == PairText(cookies[i])
  {
    var raw := Split(DocumentCookie(cookies), ';');
    SplitDocumentCookie(cookies);
    forall i | 0 <= i < |cookies|
      ensures TrimStart(raw[i]) == PairText(cookies[i])
    {
      var p := PairText(cookies[i]);
      assert |p| > 0 && p[0] != ' ' by {
        if |cookies[i].0| == 0 { assert p[0] == '='; } else { assert p[0] == cookies[i].0[0]; }
      }
      if i > 0 {
        assert (" " + p)[1..] == p;
      }
    }
  }

  /** The trimming reader finds the first cookie that has the name, wherever it stands, and `null` for none. */
  lemma TrimmedFindsEveryCookie(cookies: seq<(string, string)>, name: string, k: nat)
    requires |cookies| >= 1
    requires forall i :: 0 <= i < |cookies| ==> Plain(cookies[i])
    requires k <= |cookies|
    requires forall j :: 0 <= j < k ==> cookies[j].0 != name
    requires k < |cookies| ==> cookies[k].0 == name
    ensures ExtractCookieTrimmed(DocumentCookie(cookies), name) ==
      if k < |cookies| then Defined(Str(cookies[k].1)) else Defined(Null)
  {
    var cookie := DocumentCookie(cookies);
    TrimmedDocumentPieces(cookies);
    var pieces := TrimmedPieces(cookie);
    forall i | 0 <= i < |cookies|
      ensures NamePart(pieces[i]) == cookies[i].0
      ensures PieceValue(pieces[i]) == Defined(Str(cookies[i].1))
    {
      PieceValueOfPair(cookies[i]);
    }
    TrimmedLookupIsFirstMatch(cookie, name);
    if k < |cookies| {
      assert FirstNamed(pieces, name, k);
    }
  }

}
