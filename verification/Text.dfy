/** Helpers shared by the models: an optional value, Python's truthiness and `str.strip`, and joining texts. */
module Text {

  datatype Option<+T> = None | Some(value: T)

  /** Python truthiness of an optional text. */
  predicate Truthy(s: Option<string>) {
    s.Some? && s.value != ""
  }

  function Min(a: int, b: int): int { if a < b then a else b }

  function Max(a: int, b: int): int { if a > b then a else b }

  function Concat(parts: seq<string>): string {
    if parts == [] then "" else parts[0] + Concat(parts[1..])
  }

  lemma {:induction false} ConcatGrows(parts: seq<string>, last: string)
    ensures Concat(parts + [last]) == Concat(parts) + last
  {
    if parts == [] {
      assert [] + [last] == [last] && [last][1..] == [] && last + "" == last && "" + last == last;
    } else {
      assert (parts + [last])[1..] == parts[1..] + [last];
      ConcatGrows(parts[1..], last);
      assert parts[0] + (Concat(parts[1..]) + last) == parts[0] + Concat(parts[1..]) + last;
    }
  }

  /** The characters that Python's `str.isspace` accepts and `str.strip` removes. */
  predicate IsSpace(c: char) {
    || '\t' <= c <= '\r' || '\U{1C}' <= c <= ' ' || c == '\U{85}' || c == '\U{A0}'
    || c == '\U{1680}' || '\U{2000}' <= c <= '\U{200A}' || c == '\U{2028}' || c == '\U{2029}'
    || c == '\U{202F}' || c == '\U{205F}' || c == '\U{3000}'
  }

  /** These 29 and no others. */
  lemma SpacesAre(c: char)
    ensures IsSpace(c) <==>
            c in "\t\n\U{B}\U{C}\r\U{1C}\U{1D}\U{1E}\U{1F} \U{85}\U{A0}\U{1680}"
            || c in "\U{2000}\U{2001}\U{2002}\U{2003}\U{2004}\U{2005}\U{2006}\U{2007}\U{2008}\U{2009}\U{200A}"
            || c in "\U{2028}\U{2029}\U{202F}\U{205F}\U{3000}"
  {
    SpacesInOrder(c);
  }

  lemma SpacesInOrder(c: char)
    ensures '\t' <= c <= '\r' <==> c == '\t' || c == '\n' || c == '\U{B}' || c == '\U{C}' || c == '\r'
  {
  }

  function TrimLeft(s: string): string {
    if s != [] && IsSpace(s[0]) then TrimLeft(s[1..]) else s
  }

  function TrimRight(s: string): string {
    if s != [] && IsSpace(s[|s| - 1]) then TrimRight(s[..|s| - 1]) else s
  }

  /** `str.strip`. */
  function Strip(s: string): string {
    TrimRight(TrimLeft(s))
  }

  lemma {:induction false} TrimLeftEdge(s: string)
    ensures var r := TrimLeft(s); r == [] || !IsSpace(r[0])
    decreases |s|
  {
    if s != [] && IsSpace(s[0]) {
      TrimLeftEdge(s[1..]);
    }
  }

  lemma {:induction false} TrimRightEdge(s: string)
    ensures var r := TrimRight(s); r <= s && (r == [] || !IsSpace(r[|r| - 1]))
    decreases |s|
  {
    if s != [] && IsSpace(s[|s| - 1]) {
      TrimRightEdge(s[..|s| - 1]);
    }
  }

  /** Neither end of a stripped text is white space, so stripping again changes nothing. */
  lemma StripIdempotent(s: string)
    ensures var r := Strip(s); r == [] || (!IsSpace(r[0]) && !IsSpace(r[|r| - 1]))
    ensures Strip(Strip(s)) == Strip(s)
  {
    TrimLeftEdge(s);
    TrimRightEdge(TrimLeft(s));
  }

  predicate AllSpace(s: string) {
    forall i :: 0 <= i < |s| ==> IsSpace(s[i])
  }

  predicate Padded(s: string, front: string, r: string, back: string) {
    s == front + r + back && AllSpace(front) && AllSpace(back)
  }

  /** `s` is `r` with white space around it, and `r` has none at its own ends. */
  ghost predicate Inside(s: string, r: string) {
    && (r == "" || (!IsSpace(r[0]) && !IsSpace(r[|r| - 1])))
    && exists front, back :: Padded(s, front, r, back)
  }

  lemma {:induction false} TrimLeftKeeps(s: string) returns (front: string)
    ensures AllSpace(front) && s == front + TrimLeft(s)
    decreases |s|
  {
    front := "";
    if s != [] && IsSpace(s[0]) {
      var rest := TrimLeftKeeps(s[1..]);
      front := [s[0]] + rest;
      assert s == [s[0]] + s[1..];
    }
  }

  lemma {:induction false} TrimRightKeeps(s: string) returns (back: string)
    ensures AllSpace(back) && s == TrimRight(s) + back
    decreases |s|
  {
    back := "";
    if s != [] && IsSpace(s[|s| - 1]) {
      var n := |s| - 1;
      var rest := TrimRightKeeps(s[..n]);
      back := rest + [s[n]];
      assert s == s[..n] + [s[n]];
    }
  }

  /** Stripping keeps all between the white space at the two ends and drops nothing else. */
  lemma StripMeans(s: string, r: string)
    ensures Strip(s) == r <==> Inside(s, r)
  {
    hide IsSpace, TrimLeft, TrimRight;
    StripIdempotent(s);
    var front := TrimLeftKeeps(s);
    var back := TrimRightKeeps(TrimLeft(s));
    assert Padded(s, front, Strip(s), back);
    if Inside(s, r) {
      var f, b :| Padded(s, f, r, b);
      if r == "" {
        OnlySpace(s, f, b, front, Strip(s), back);
      } else if Strip(s) == "" {
        OnlySpace(s, front, back, f, r, b);
      } else {
        var q := Strip(s);
        assert s == f + (r + b) == front + (q + back);
        assert (f + r)[|f + r| - 1] == r[|r| - 1] && (front + q)[|front + q| - 1] == q[|q| - 1];
        SameFront(s, f, r + b, front, q + back);
        SameFront(s, front, q + back, f, r + b);
        SameBack(s, f + r, b, front + q, back);
        SameBack(s, front + q, back, f + r, b);
        assert r == s[|f|..|s| - |b|] == q;
      }
    }
  }

  lemma SpaceInFront(s: string, front: string, rest: string, i: nat)
    requires s == front + rest && AllSpace(front) && i < |front|
    ensures IsSpace(s[i])
  {
    hide IsSpace;
    assert s[i] == front[i];
  }

  lemma SpaceInBack(s: string, rest: string, back: string, i: nat)
    requires s == rest + back && AllSpace(back) && |rest| <= i < |s|
    ensures IsSpace(s[i])
  {
    hide IsSpace;
    assert s[i] == back[i - |rest|];
  }

  lemma OnlySpace(s: string, f: string, b: string, front: string, r: string, back: string)
    requires Padded(s, f, "", b) && Padded(s, front, r, back) && (r == "" || !IsSpace(r[0]))
    ensures r == ""
  {
    hide IsSpace, AllSpace;
    var i := |front|;
    if r != "" {
      assert s[i] == r[0];
      if i < |f| { SpaceInFront(s, f, b, i); } else { SpaceInBack(s, f, b, i); }
      assert false;
    }
  }

  lemma SameFront(s: string, f: string, r: string, front: string, q: string)
    requires s == f + r == front + q && AllSpace(front) && r != "" && !IsSpace(r[0])
    ensures |front| <= |f|
  {
    hide IsSpace, AllSpace;
    assert s[|f|] == r[0];
    if |f| < |front| {
      SpaceInFront(s, front, q, |f|);
      assert false;
    }
  }

  lemma SameBack(s: string, r: string, b: string, q: string, back: string)
    requires s == r + b == q + back && AllSpace(back) && r != "" && !IsSpace(r[|r| - 1])
    ensures |back| <= |b|
  {
    hide IsSpace, AllSpace;
    assert s[|r| - 1] == r[|r| - 1];
    if |b| < |back| {
      SpaceInBack(s, q, back, |r| - 1);
      assert false;
    }
  }
}
