/**
 * The string facilities of the JavaScript runtime that the generators rely on:
 * `Array.prototype.join`, template-literal line composition and the decimal
 * rendering of an integral `number` inside a template literal. It also holds the
 * vocabulary used to state facts about generated text: occurrence at an index,
 * prefix, suffix, containment and order.
 */
module Text {

  /** `t` occurs in `s` starting at index `i`. */
  predicate OccursAt(s: string, t: string, i: nat)
  {
    i + |t| <= |s| && s[i..i + |t|] == t
  }

  predicate StartsWith(s: string, t: string)
  {
    |t| <= |s| && s[..|t|] == t
  }

  predicate EndsWith(s: string, t: string)
  {
    |t| <= |s| && s[|s| - |t|..] == t
  }

  ghost predicate Contains(s: string, t: string)
  {
    exists i: nat :: OccursAt(s, t, i)
  }

  /** `t` occurs in `s`, and an occurrence of `u` starts after that occurrence of `t` ends. */
  ghost predicate Precedes(s: string, t: string, u: string)
  {
    exists i: nat, j: nat :: OccursAt(s, t, i) && OccursAt(s, u, j) && i + |t| <= j
  }

  /**
   * Each of `ts` occurs in `s` at the matching position of `pos`, and each occurrence
   * ends before the next one starts: the texts appear one after another, in list order.
   */
  predicate InOrderAt(s: string, ts: seq<string>, pos: seq<nat>)
  {
    && |pos| == |ts|
    && (forall k :: 0 <= k < |ts| ==> OccursAt(s, ts[k], pos[k]))
    && (forall k :: 0 <= k < |ts| - 1 ==> pos[k] + |ts[k]| <= pos[k + 1])
  }

  ghost predicate InOrder(s: string, ts: seq<string>)
  {
    exists pos :: InOrderAt(s, ts, pos)
  }

  /** `parts` with `sep` between consecutive elements, as `parts.join(sep)` does; `[]` gives "". */
  function Join(parts: seq<string>, sep: string): string
  {
    if |parts| == 0 then ""
    else if |parts| == 1 then parts[0]
    else parts[0] + sep + Join(parts[1..], sep)
  }

  lemma JoinCons(x: string, rest: seq<string>, sep: string)
    requires rest != []
    ensures Join([x] + rest, sep) == x + sep + Join(rest, sep)
  {
    assert ([x] + rest)[1..] == rest;
  }

  /** Joining is a homomorphism from concatenation of lists to concatenation with a separator. */
  lemma {:induction false} JoinConcat(a: seq<string>, b: seq<string>, sep: string)
    requires a != [] && b != []
    ensures Join(a + b, sep) == Join(a, sep) + sep + Join(b, sep)
  {
    if |a| == 1 {
      assert a + b == [a[0]] + b;
      JoinCons(a[0], b, sep);
    } else {
      assert a + b == [a[0]] + (a[1..] + b);
      JoinCons(a[0], a[1..] + b, sep);
      JoinConcat(a[1..], b, sep);
      assert a == [a[0]] + a[1..];
      JoinCons(a[0], a[1..], sep);
    }
  }

  /** Adding one part at the end adds the separator and that part. */
  lemma JoinSnoc(parts: seq<string>, x: string, sep: string)
    requires parts != []
    ensures Join(parts + [x], sep) == Join(parts, sep) + sep + x
  {
    JoinConcat(parts, [x], sep);
  }

  /** The index at which the `k`-th part starts in `Join(parts, sep)`. */
  function Offset(parts: seq<string>, sep: string, k: nat): nat
    requires k <= |parts|
  {
    if k == 0 then 0 else |Join(parts[..k], sep)| + |sep|
  }

  /** From the `k`-th part on, the join reads as the join of the remaining parts. */
  lemma JoinSuffix(parts: seq<string>, sep: string, k: nat)
    requires k < |parts|
    ensures Offset(parts, sep, k) <= |Join(parts, sep)|
    ensures Join(parts, sep)[Offset(parts, sep, k)..] == Join(parts[k..], sep)
  {
    if k == 0 {
      assert parts == parts[k..];
    } else {
      assert parts == parts[..k] + parts[k..];
      JoinConcat(parts[..k], parts[k..], sep);
    }
  }

  /** The `k`-th part sits at `Offset(parts, sep, k)`, and the separator follows it unless it is last. */
  lemma JoinAt(parts: seq<string>, sep: string, k: nat)
    requires k < |parts|
    ensures OccursAt(Join(parts, sep), parts[k], Offset(parts, sep, k))
    ensures k + 1 < |parts| ==>
              && Offset(parts, sep, k + 1) == Offset(parts, sep, k) + |parts[k]| + |sep|
              && OccursAt(Join(parts, sep), sep, Offset(parts, sep, k) + |parts[k]|)
  {
    JoinPartAt(parts, sep, k);
    if k + 1 < |parts| {
      JoinNextOffset(parts, sep, k);
      JoinSeparatorAt(parts, sep, k);
    }
  }

  lemma JoinPartAt(parts: seq<string>, sep: string, k: nat)
    requires k < |parts|
    ensures OccursAt(Join(parts, sep), parts[k], Offset(parts, sep, k))
  {
    var s, o := Join(parts, sep), Offset(parts, sep, k);
    JoinSuffix(parts, sep, k);
    JoinStartsWith(parts[k..], sep);
    assert s[o..o + |parts[k]|] == s[o..][..|parts[k]|];
  }

  lemma JoinSeparatorAt(parts: seq<string>, sep: string, k: nat)
    requires k + 1 < |parts|
    ensures OccursAt(Join(parts, sep), sep, Offset(parts, sep, k) + |parts[k]|)
  {
    var s, o, p := Join(parts, sep), Offset(parts, sep, k), parts[k];
    JoinSuffix(parts, sep, k);
    var tail, rest := parts[k..], s[o..];
    assert tail == [p] + tail[1..];
    JoinCons(p, tail[1..], sep);
    assert rest == p + sep + Join(tail[1..], sep);
    assert rest[|p|..|p| + |sep|] == sep;
    assert s[o + |p|..o + |p| + |sep|] == rest[|p|..|p| + |sep|];
  }

  /** The part after the `k`-th starts one separator after the `k`-th ends. */
  lemma JoinNextOffset(parts: seq<string>, sep: string, k: nat)
    requires k + 1 < |parts|
    ensures Offset(parts, sep, k + 1) == Offset(parts, sep, k) + |parts[k]| + |sep|
  {
    var head := parts[..k + 1];
    if k == 0 {
      assert head == [parts[0]];
    } else {
      assert head == parts[..k] + [parts[k]];
      JoinSnoc(parts[..k], parts[k], sep);
    }
  }

  /** Parts come out in list order: part `i` ends before part `j` starts. */
  lemma {:induction false} JoinOrder(parts: seq<string>, sep: string, i: nat, j: nat)
    requires i < j < |parts|
    ensures Offset(parts, sep, i) + |parts[i]| <= Offset(parts, sep, j)
  {
    JoinAt(parts, sep, j - 1);
    if i < j - 1 {
      JoinOrder(parts, sep, i, j - 1);
    }
  }

  /** The parts at the positions `idx`, in that order. */
  function Select(parts: seq<string>, idx: seq<nat>): (r: seq<string>)
    requires forall k :: 0 <= k < |idx| ==> idx[k] < |parts|
    ensures |r| == |idx| && forall k :: 0 <= k < |idx| ==> r[k] == parts[idx[k]]
  {
    seq(|idx|, k requires 0 <= k < |idx| => parts[idx[k]])
  }

  /** Parts picked at increasing positions appear in the join one after another, in that order. */
  lemma JoinInOrder(parts: seq<string>, sep: string, idx: seq<nat>)
    requires forall k :: 0 <= k < |idx| ==> idx[k] < |parts|
    requires forall k :: 0 <= k < |idx| - 1 ==> idx[k] < idx[k + 1]
    ensures InOrder(Join(parts, sep), Select(parts, idx))
  {
    var s, ts := Join(parts, sep), Select(parts, idx);
    var pos := seq(|idx|, k requires 0 <= k < |idx| => Offset(parts, sep, idx[k]));
    forall k | 0 <= k < |ts|
      ensures OccursAt(s, ts[k], pos[k])
    {
      JoinAt(parts, sep, idx[k]);
    }
    forall k | 0 <= k < |ts| - 1
      ensures pos[k] + |ts[k]| <= pos[k + 1]
    {
      JoinOrder(parts, sep, idx[k], idx[k + 1]);
    }
    assert InOrderAt(s, ts, pos);
  }

  lemma JoinContains(parts: seq<string>, sep: string, k: nat)
    requires k < |parts|
    ensures Contains(Join(parts, sep), parts[k])
  {
    JoinAt(parts, sep, k);
  }

  lemma JoinPrecedes(parts: seq<string>, sep: string, i: nat, j: nat)
    requires i < j < |parts|
    ensures Precedes(Join(parts, sep), parts[i], parts[j])
  {
    JoinAt(parts, sep, i);
    JoinAt(parts, sep, j);
    JoinOrder(parts, sep, i, j);
  }

  lemma JoinStartsWith(parts: seq<string>, sep: string)
    requires parts != []
    ensures StartsWith(Join(parts, sep), parts[0])
  {
    if |parts| > 1 {
      assert Join(parts, sep) == parts[0] + (sep + Join(parts[1..], sep));
    }
  }

  /** The join of the parts from `k` on is a suffix of the whole join. */
  lemma JoinEndsWith(parts: seq<string>, sep: string, k: nat)
    requires 0 < k < |parts|
    ensures EndsWith(Join(parts, sep), Join(parts[k..], sep))
  {
    assert parts == parts[..k] + parts[k..];
    JoinConcat(parts[..k], parts[k..], sep);
  }

  /** `f` applied to every item, as `items.map(f)` does. */
  function MapSeq(items: seq<string>, f: string -> string): (r: seq<string>)
    ensures |r| == |items|
    ensures forall k :: 0 <= k < |items| ==> r[k] == f(items[k])
  {
    seq(|items|, k requires 0 <= k < |items| => f(items[k]))
  }

  lemma MapJoinConcat(a: seq<string>, b: seq<string>, f: string -> string, sep: string)
    requires a != [] && b != []
    ensures Join(MapSeq(a + b, f), sep) == Join(MapSeq(a, f), sep) + sep + Join(MapSeq(b, f), sep)
  {
    assert MapSeq(a + b, f) == MapSeq(a, f) + MapSeq(b, f);
    JoinConcat(MapSeq(a, f), MapSeq(b, f), sep);
  }

  lemma OccursAtCompose(s: string, t: string, u: string, i: nat, j: nat)
    requires OccursAt(s, t, i) && OccursAt(t, u, j)
    ensures OccursAt(s, u, i + j)
  {
    var piece := s[i + j..i + j + |u|];
    forall n | 0 <= n < |u|
      ensures piece[n] == u[n]
    {
      assert u[n] == t[j + n] == s[i + j + n];
    }
    assert piece == u;
  }

  /** Part `k` of a join that is itself part `m` of an outer join, located in the outer join. */
  lemma JoinNestedAt(parts: seq<string>, sep: string, m: nat, inner: seq<string>, innerSep: string, k: nat)
    requires m < |parts| && parts[m] == Join(inner, innerSep) && k < |inner|
    ensures OccursAt(Join(parts, sep), inner[k], Offset(parts, sep, m) + Offset(inner, innerSep, k))
    ensures Offset(inner, innerSep, k) + |inner[k]| <= |parts[m]|
  {
    JoinAt(parts, sep, m);
    JoinAt(inner, innerSep, k);
    OccursAtCompose(Join(parts, sep), parts[m], inner[k], Offset(parts, sep, m), Offset(inner, innerSep, k));
  }

  lemma JoinPrecedesNested(parts: seq<string>, sep: string, i: nat, m: nat, inner: seq<string>, innerSep: string, k: nat)
    requires i < m < |parts| && parts[m] == Join(inner, innerSep) && k < |inner|
    ensures Precedes(Join(parts, sep), parts[i], inner[k])
  {
    JoinAt(parts, sep, i);
    JoinOrder(parts, sep, i, m);
    JoinNestedAt(parts, sep, m, inner, innerSep, k);
  }

  lemma JoinNestedPrecedes(parts: seq<string>, sep: string, m: nat, j: nat, inner: seq<string>, innerSep: string, k: nat)
    requires m < j < |parts| && parts[m] == Join(inner, innerSep) && k < |inner|
    ensures Precedes(Join(parts, sep), inner[k], parts[j])
  {
    JoinAt(parts, sep, j);
    JoinOrder(parts, sep, m, j);
    JoinNestedAt(parts, sep, m, inner, innerSep, k);
  }

  lemma JoinNestedOrder(parts: seq<string>, sep: string, m: nat, inner: seq<string>, innerSep: string, i: nat, k: nat)
    requires m < |parts| && parts[m] == Join(inner, innerSep) && i < k < |inner|
    ensures Precedes(Join(parts, sep), inner[i], inner[k])
  {
    JoinOrder(inner, innerSep, i, k);
    JoinNestedAt(parts, sep, m, inner, innerSep, i);
    JoinNestedAt(parts, sep, m, inner, innerSep, k);
  }

  // Decimal rendering of an integer, as `${n}` renders an integral JavaScript number.

  function DigitChar(d: nat): char
    requires d < 10
  {
    "0123456789"[d]
  }

  function DigitValue(c: char): nat
  {
    if '0' <= c <= '9' then c as int - '0' as int else 0
  }

  /** The decimal digits of `n`, most significant first, without leading zeros. */
  function NatToString(n: nat): (s: string)
    ensures s != []
    ensures forall k :: 0 <= k < |s| ==> '0' <= s[k] <= '9'
    decreases n
  {
    if n < 10 then [DigitChar(n)] else NatToString(n / 10) + [DigitChar(n % 10)]
  }

  function IntToString(i: int): string
  {
    if i < 0 then "-" + NatToString(-i) else NatToString(i)
  }

  /** Reads decimal digits back; the reference against which the rendering is checked. */
  function ParseNat(s: string): nat
    decreases |s|
  {
    if s == [] then 0 else 10 * ParseNat(s[..|s| - 1]) + DigitValue(s[|s| - 1])
  }

  function ParseInt(s: string): int
  {
    if |s| > 0 && s[0] == '-' then -(ParseNat(s[1..]) as int) else ParseNat(s)
  }

  lemma {:induction false} NatToStringRoundTrip(n: nat)
    ensures ParseNat(NatToString(n)) == n
    decreases n
  {
    var s := NatToString(n);
    if n >= 10 {
      NatToStringRoundTrip(n / 10);
      assert s[..|s| - 1] == NatToString(n / 10);
    }
  }

  lemma IntToStringRoundTrip(i: int)
    ensures ParseInt(IntToString(i)) == i
  {
    if i < 0 {
      NegativeRoundTrip(i);
    } else {
      NatToStringRoundTrip(i);
      var s := NatToString(i);
      assert '0' <= s[0] <= '9';
      assert ParseInt(s) == ParseNat(s);
    }
  }

  lemma NegativeRoundTrip(i: int)
    requires i < 0
    ensures ParseInt(IntToString(i)) == i
  {
    var n: nat := -i;
    var t := NatToString(n);
    assert IntToString(i) == "-" + t;
    NatToStringRoundTrip(n);
    ParseIntNegative(t);
  }

  /** A leading minus sign negates the digits after it. */
  lemma ParseIntNegative(t: string)
    ensures ParseInt("-" + t) == -(ParseNat(t) as int)
  {
    assert ("-" + t)[1..] == t;
  }

  /** Different numbers render differently. */
  lemma IntToStringInjective(a: int, b: int)
    ensures IntToString(a) == IntToString(b) ==> a == b
  {
    IntToStringRoundTrip(a);
    IntToStringRoundTrip(b);
  }
}
