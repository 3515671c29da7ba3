/**
 * The few Python `str` operations the SDK relies on: `strip`, `lower`,
 * `startswith`, `in`, `split(sep)` and `join`.
 */
module Text {

  import opened Wrappers

  /**
   * Python's `str.isspace`, the characters `str.strip()` removes: the ASCII
   * controls 9-13 and 28-31, the space, NEL, the no-break space, and the
   * Unicode space separators, line and paragraph separators.
   */
  predicate IsSpace(c: char)
  {
    var n := c as int;
    (9 <= n <= 13) || (28 <= n <= 32) || n == 0x85 || n == 0xA0 || n == 0x1680 || (0x2000 <= n <= 0x200A) ||
    n == 0x2028 || n == 0x2029 || n == 0x202F || n == 0x205F || n == 0x3000
  }

  function TrimLeft(s: string): (r: string)
    ensures |r| <= |s| && r == s[|s| - |r|..]
    ensures r == [] || !IsSpace(r[0])
    ensures forall k :: 0 <= k < |s| - |r| ==> IsSpace(s[k])
  {
    if s != [] && IsSpace(s[0]) then
      var r := TrimLeft(s[1..]);
      assert s[1..][|s| - 1 - |r|..] == s[|s| - |r|..];
      assert forall k :: 1 <= k < |s| - |r| ==> s[k] == s[1..][k - 1];
      r
    else s
  }

  function TrimRight(s: string): (r: string)
    ensures |r| <= |s| && r == s[..|r|]
    ensures r == [] || !IsSpace(r[|r| - 1])
    ensures forall k :: |r| <= k < |s| ==> IsSpace(s[k])
  {
    if s != [] && IsSpace(s[|s| - 1]) then TrimRight(s[..|s| - 1]) else s
  }

  /** `s.strip()`: the longest slice of `s` without surrounding whitespace. */
  function Strip(s: string): (r: string)
    ensures |r| <= |s|
    ensures r == [] || (!IsSpace(r[0]) && !IsSpace(r[|r| - 1]))
  {
    TrimRight(TrimLeft(s))
  }

  lemma StripOfBlank(s: string)
    requires forall k :: 0 <= k < |s| ==> IsSpace(s[k])
    ensures Strip(s) == []
  {
  }

  lemma StripKeepsInner(s: string)
    requires s == [] || (!IsSpace(s[0]) && !IsSpace(s[|s| - 1]))
    ensures Strip(s) == s
  {
  }

  function LowerChar(c: char): char
  {
    if 'A' <= c <= 'Z' then (c as int - 'A' as int + 'a' as int) as char else c
  }

  /** `s.lower()` on ASCII letters; other characters are kept. */
  function Lower(s: string): (r: string)
    ensures |r| == |s|
    ensures forall k :: 0 <= k < |s| ==> r[k] == LowerChar(s[k])
  {
    seq(|s|, k requires 0 <= k < |s| => LowerChar(s[k]))
  }

  lemma LowerIdempotent(s: string)
    ensures Lower(Lower(s)) == Lower(s)
  {
  }

  predicate StartsWith(s: string, prefix: string)
  {
    |prefix| <= |s| && s[..|prefix|] == prefix
  }

  predicate OccursAt(s: string, sub: string, i: nat)
  {
    i + |sub| <= |s| && s[i..i + |sub|] == sub
  }

  /** `s.find(sub)`: the first index where `sub` occurs. */
  function Find(s: string, sub: string): (r: Option<nat>)
    ensures r.Some? ==> OccursAt(s, sub, r.value)
    ensures r.Some? ==> forall j :: 0 <= j < r.value ==> !OccursAt(s, sub, j)
    ensures r.None? ==> forall j :: 0 <= j <= |s| ==> !OccursAt(s, sub, j)
    decreases |s|
  {
    if |sub| > |s| then None
    else if s[..|sub|] == sub then Some(0)
    else
      match Find(s[1..], sub)
      case None =>
        forall j | 1 <= j <= |s| ensures !OccursAt(s, sub, j) {
          OccursShift(s, sub, j);
        }
        None
      case Some(i) =>
        forall j | 1 <= j <= i ensures !OccursAt(s, sub, j) {
          OccursShift(s, sub, j);
        }
        OccursShift(s, sub, i + 1);
        Some(i + 1)
  }

  /** An occurrence past the first character is one in the rest. */
  lemma OccursShift(s: string, sub: string, j: nat)
    requires 1 <= j && s != []
    ensures OccursAt(s, sub, j) <==> OccursAt(s[1..], sub, j - 1)
  {
    if j + |sub| <= |s| {
      var a, b := s[1..][j - 1..j - 1 + |sub|], s[j..j + |sub|];
      assert |a| == |b|;
      forall k | 0 <= k < |a| ensures a[k] == b[k] {
        assert a[k] == s[1..][j - 1 + k] == s[j + k];
      }
      assert a == b;
    } else {
      assert !(j - 1 + |sub| <= |s[1..]|);
    }
  }

  /** `sub in s`. */
  predicate Contains(s: string, sub: string)
  {
    Find(s, sub).Some?
  }

  /** `s.split(sep)` for a non-empty separator. */
  function Split(s: string, sep: string): (r: seq<string>)
    requires sep != []
    ensures |r| >= 1
    ensures !Contains(s, sep) ==> r == [s]
    decreases |s|
  {
    match Find(s, sep)
    case None => [s]
    case Some(i) => [s[..i]] + Split(s[i + |sep|..], sep)
  }

  /** `sep.join(parts)`. */
  function Join(parts: seq<string>, sep: string): string
  {
    if parts == [] then []
    else if |parts| == 1 then parts[0]
    else parts[0] + sep + Join(parts[1..], sep)
  }

  /** Splitting and joining back with the same separator gives the original text. */
  lemma {:induction false} JoinSplit(s: string, sep: string)
    requires sep != []
    ensures Join(Split(s, sep), sep) == s
    decreases |s|
  {
    var f := Find(s, sep);
    if f.Some? {
      var i := f.value;
      var rest := s[i + |sep|..];
      var tail := Split(rest, sep);
      assert Split(s, sep) == [s[..i]] + tail;
      JoinSplit(rest, sep);
      JoinCons(s[..i], tail, sep);
      Reassemble(s, sep, i);
    } else {
      assert Split(s, sep) == [s];
    }
  }

  lemma Reassemble(s: string, sep: string, i: nat)
    requires OccursAt(s, sep, i)
    ensures s == s[..i] + sep + s[i + |sep|..]
  {
    assert s == s[..i] + s[i..i + |sep|] + s[i + |sep|..];
  }

  lemma JoinCons(head: string, tail: seq<string>, sep: string)
    requires tail != []
    ensures Join([head] + tail, sep) == head + sep + Join(tail, sep)
  {
    assert ([head] + tail)[1..] == tail;
  }

  /** Joining one more part appends the separator and the part. */
  lemma {:induction false} JoinSnoc(parts: seq<string>, p: string, sep: string)
    requires parts != []
    ensures Join(parts + [p], sep) == Join(parts, sep) + sep + p
  {
    if |parts| > 1 {
      assert (parts + [p])[1..] == parts[1..] + [p];
      JoinSnoc(parts[1..], p, sep);
    }
  }

  /** No part of a split contains the separator. */
  lemma {:induction false} SplitPartsFree(s: string, sep: string)
    requires sep != []
    ensures forall p :: p in Split(s, sep) ==> !Contains(p, sep)
    decreases |s|
  {
    var f := Find(s, sep);
    if f.Some? {
      var i := f.value;
      var rest := s[i + |sep|..];
      SplitPartsFree(rest, sep);
      assert Split(s, sep) == [s[..i]] + Split(rest, sep);
      HeadFree(s, sep, i);
    }
  }

  lemma HeadFree(s: string, sep: string, i: nat)
    requires sep != [] && i <= |s|
    requires forall j :: 0 <= j < i ==> !OccursAt(s, sep, j)
    ensures !Contains(s[..i], sep)
  {
    var head := s[..i];
    var g := Find(head, sep);
    if g.Some? {
      var j := g.value;
      assert j < i;
      assert head[j..j + |sep|] == s[j..j + |sep|];
      assert OccursAt(s, sep, j);
    }
  }

  /** A slice of a text without `sub` has no `sub` either. */
  lemma SliceFree(s: string, sub: string, a: nat, b: nat)
    requires a <= b <= |s| && !Contains(s, sub)
    ensures !Contains(s[a..b], sub)
  {
    var t := s[a..b];
    if Find(t, sub).Some? {
      var j := Find(t, sub).value;
      assert t[j..j + |sub|] == s[a + j..a + j + |sub|];
      assert OccursAt(s, sub, a + j);
    }
  }

  /** Stripping cannot create an occurrence of `sub`. */
  lemma StripFree(s: string, sub: string)
    requires !Contains(s, sub)
    ensures !Contains(Strip(s), sub)
  {
    var l := TrimLeft(s);
    assert l == s[|s| - |l|..|s|];
    SliceFree(s, sub, |s| - |l|, |s|);
    SliceFree(l, sub, 0, |TrimRight(l)|);
  }

  /** The stripped parts of texts without `sub` are without `sub`. */
  lemma {:induction false} StrippedFree(xs: seq<string>, sub: string)
    requires forall x :: x in xs ==> !Contains(x, sub)
    ensures forall p :: p in StrippedNonEmpty(xs) ==> !Contains(p, sub)
    decreases |xs|
  {
    if xs != [] {
      StripFree(xs[0], sub);
      assert forall x :: x in xs[1..] ==> x in xs;
      StrippedFree(xs[1..], sub);
    }
  }

  /** No comma part holds a comma. */
  lemma CommaPartsFree(text: string)
    ensures forall p :: p in CommaParts(text) ==> !Contains(p, ",")
  {
    SplitPartsFree(text, ",");
    StrippedFree(Split(text, ","), ",");
  }

  /** `s.split(sep)[0]`: the text before the first separator, or all of `s`. */
  function Before(s: string, sep: string): (r: string)
    requires sep != []
    ensures StartsWith(s, r) && !Contains(r, sep)
    ensures Contains(s, sep) ==> OccursAt(s, sep, |r|)
    ensures !Contains(s, sep) ==> r == s
  {
    SplitPartsFree(s, sep);
    match Find(s, sep)
    case None => s
    case Some(i) => s[..i]
  }

  /** `s.split(sep)[1]` when `sep in s`: the text between the first and second separators. */
  function AfterFirst(s: string, sep: string): (r: string)
    requires sep != [] && Contains(s, sep)
    ensures r == Split(s, sep)[1]
  {
    var i := Find(s, sep).value;
    Before(s[i + |sep|..], sep)
  }

  /** A part that `strip` leaves alone and that is not empty. */
  predicate IsStrippedPart(p: string)
  {
    p != [] && Strip(p) == p
  }

  /** Stripping twice is stripping once. */
  lemma StripIdempotent(s: string)
    ensures Strip(Strip(s)) == Strip(s)
  {
    StripKeepsInner(Strip(s));
  }

  /** The stripped parts of a list of texts, keeping only the non-empty ones, in order. */
  function StrippedNonEmpty(xs: seq<string>): (r: seq<string>)
    ensures |r| <= |xs|
    ensures forall i :: 0 <= i < |r| ==> IsStrippedPart(r[i])
  {
    if xs == [] then []
    else
      var head := Strip(xs[0]);
      var rest := StrippedNonEmpty(xs[1..]);
      StripIdempotent(xs[0]);
      if head != [] then [head] + rest else rest
  }

  /** `[s.strip() for s in text.split(",") if s.strip()]` */
  function CommaParts(text: string): seq<string>
  {
    StrippedNonEmpty(Split(text, ","))
  }

  /** Every comma part is non-empty and already stripped. */
  lemma CommaPartsStripped(text: string)
    ensures forall i :: 0 <= i < |CommaParts(text)| ==> IsStrippedPart(CommaParts(text)[i])
  {
  }

  /** An empty or blank text has no parts. */
  lemma CommaPartsOfEmpty()
    ensures CommaParts("") == []
  {
    assert Split("", ",") == [""];
  }

  /** A text without commas is one part: itself, stripped, when not blank. */
  lemma CommaPartsOfSingle(text: string)
    requires !Contains(text, ",")
    ensures CommaParts(text) == if Strip(text) == [] then [] else [Strip(text)]
  {
    assert Split(text, ",") == [text];
  }
}
