/**
 * The parts of Go's `strings` package the blog core relies on:
 * `strings.Join`, `strings.Contains` and `strings.ToLower` (restricted to ASCII).
 */
module Strings {

  /** `strings.Join(parts, sep)`: the parts in order, with `sep` between neighbours. */
  function Join(parts: seq<string>, sep: string): string
    decreases |parts|
  {
    if |parts| == 0 then ""
    else if |parts| == 1 then parts[0]
    else Join(parts[..|parts| - 1], sep) + sep + parts[|parts| - 1]
  }

  /** Joining two non-empty lists is joining each and putting one separator between them. */
  lemma {:induction false} JoinAppend(a: seq<string>, b: seq<string>, sep: string)
    requires |a| > 0 && |b| > 0
    ensures Join(a + b, sep) == Join(a, sep) + sep + Join(b, sep)
    decreases |b|
  {
    var ab := a + b;
    if |b| == 1 {
      assert ab[..|ab| - 1] == a;
    } else {
      var b' := b[..|b| - 1];
      assert ab[..|ab| - 1] == a + b';
      JoinAppend(a, b', sep);
    }
  }

  /** `sub` occurs in `s` starting at index `k`. */
  predicate OccursAt(s: string, sub: string, k: int)
  {
    0 <= k <= |s| - |sub| && s[k..k + |sub|] == sub
  }

  lemma JoinFour(a: string, b: string, c: string, d: string, sep: string)
    ensures Join([a, b, c, d], sep) == a + sep + b + sep + c + sep + d
  {
    var parts := [a, b, c, d];
    assert [a, b][..1] == [a];
    assert Join([a, b], sep) == a + sep + b;
    assert [a, b, c][..2] == [a, b];
    assert Join([a, b, c], sep) == a + sep + b + sep + c;
    assert parts[..3] == [a, b, c];
  }

  lemma JoinSix(a: string, b: string, c: string, d: string, e: string, f: string, sep: string)
    ensures Join([a, b, c, d, e, f], sep) == a + sep + b + sep + c + sep + d + sep + e + sep + f
  {
    JoinFour(a, b, c, d, sep);
    assert [a, b, c, d, e][..4] == [a, b, c, d];
    assert [a, b, c, d, e, f][..5] == [a, b, c, d, e];
  }

  /** `strings.Contains(s, sub)`. */
  predicate Contains(s: string, sub: string)
  {
    exists k | 0 <= k <= |s| - |sub| :: OccursAt(s, sub, k)
  }

  lemma ContainsMiddle(a: string, sub: string, b: string)
    ensures Contains(a + sub + b, sub)
  {
    var s := a + sub + b;
    assert s[|a|..|a| + |sub|] == sub;
    assert OccursAt(s, sub, |a|);
  }

  lemma ContainsLeft(s: string, sub: string, b: string)
    requires Contains(s, sub)
    ensures Contains(s + b, sub)
  {
    var k :| 0 <= k <= |s| - |sub| && OccursAt(s, sub, k);
    assert (s + b)[k..k + |sub|] == sub;
    assert OccursAt(s + b, sub, k);
  }

  lemma ContainsTransitive(s: string, mid: string, sub: string)
    requires Contains(s, mid) && Contains(mid, sub)
    ensures Contains(s, sub)
  {
    var k :| 0 <= k <= |s| - |mid| && OccursAt(s, mid, k);
    var j :| 0 <= j <= |mid| - |sub| && OccursAt(mid, sub, j);
    assert s[k..k + |mid|] == mid;
    forall t | 0 <= t < |sub|
      ensures s[k + j..k + j + |sub|][t] == sub[t]
    {
      assert s[k + j + t] == s[k..k + |mid|][j + t] == mid[j + t];
    }
    assert OccursAt(s, sub, k + j);
  }

  /** Every part occurs in the joined string. */
  lemma {:induction false} JoinContainsPart(parts: seq<string>, sep: string, i: nat)
    requires i < |parts|
    ensures Contains(Join(parts, sep), parts[i])
    decreases |parts|
  {
    var n := |parts|;
    if n == 1 {
      ContainsMiddle("", parts[0], "");
      assert "" + parts[0] + "" == Join(parts, sep);
    } else if i == n - 1 {
      ContainsMiddle(Join(parts[..n - 1], sep) + sep, parts[i], "");
      assert Join(parts[..n - 1], sep) + sep + parts[i] + "" == Join(parts, sep);
    } else {
      var init := Join(parts[..n - 1], sep);
      JoinContainsPart(parts[..n - 1], sep, i);
      ContainsLeft(init, parts[i], sep + parts[n - 1]);
      assert init + (sep + parts[n - 1]) == Join(parts, sep);
    }
  }

  /** Every part occurs in the joined string, all at once. */
  lemma JoinContainsEvery(parts: seq<string>, sep: string)
    ensures forall i | 0 <= i < |parts| :: Contains(Join(parts, sep), parts[i])
  {
    forall i | 0 <= i < |parts|
      ensures Contains(Join(parts, sep), parts[i])
    {
      JoinContainsPart(parts, sep, i);
    }
  }

  /** Every part occurs in the parts joined and wrapped in braces. */
  lemma BracedJoinContainsEvery(parts: seq<string>, sep: string)
    ensures forall i | 0 <= i < |parts| :: Contains("{" + Join(parts, sep) + "}", parts[i])
  {
    var joined := Join(parts, sep);
    JoinContainsEvery(parts, sep);
    ContainsMiddle("{", joined, "}");
    forall i | 0 <= i < |parts|
      ensures Contains("{" + joined + "}", parts[i])
    {
      ContainsTransitive("{" + joined + "}", joined, parts[i]);
    }
  }

  /** `unicode.ToLower` on the ASCII letters; every other character is kept. */
  function LowerChar(c: char): char
  {
    if 'A' <= c <= 'Z' then (c as int + 32) as char else c
  }

  /** `strings.ToLower`, character by character. */
  function ToLower(s: string): (r: string)
    ensures |r| == |s|
    ensures forall i | 0 <= i < |s| :: r[i] == LowerChar(s[i])
  {
    if s == [] then [] else [LowerChar(s[0])] + ToLower(s[1..])
  }

  /** Lowering an already lowered string changes nothing. */
  lemma ToLowerIdempotent(s: string)
    ensures ToLower(ToLower(s)) == ToLower(s)
  {
    var once := ToLower(s);
    var twice := ToLower(once);
    assert forall i | 0 <= i < |s| :: twice[i] == once[i];
  }
}
