/**
 * Label allocation. The labels handed out are all the non-empty strings of
 * spaces and tabs, shortest first and, within one length, in lexicographic
 * order with space before tab, each followed by a linefeed. The k-th of them
 * (counting from 0) is the binary form of k + 2 without its leading 1, written
 * with the digit symbols. A cache gives each label name the next label on its
 * first use and the same label on every later use.
 */
module Labels {
  import opened Wrappers
  import opened Numbers

  /** The k-th label without its linefeed: k + 2 in binary, leading 1 dropped. */
  function LabelBody(k: nat): string
  {
    PosIntToWhitespace(k + 2)[1..]
  }

  /** The k-th label body is a non-empty digit string of rank k + 2. */
  lemma LabelBodyRank(k: nat)
    ensures |LabelBody(k)| >= 1 && AllDigits(LabelBody(k))
    ensures Rank(LabelBody(k)) == k + 2
  {
    var d := PosIntToWhitespace(k + 2);
    BinaryDigits(k + 2);
    ValueBound(d);
    ValueFront(d);
    assert |d| != 1;
  }

  /** The k-th label the generator yields. */
  function NthLabel(k: nat): string
  {
    LabelBody(k) + "\n"
  }

  /**
   * The position of a digit string in length-then-value order: the strings of
   * length L occupy the ranks 2^L to 2^(L+1) - 1.
   */
  function Rank(s: string): nat
  {
    Pow2(|s|) + Value(s)
  }

  /** The value of a digit string, read from its first digit. */
  lemma {:induction false} ValueFront(s: string)
    requires s != []
    ensures Value(s) == Bit(s[0]) * Pow2(|s| - 1) + Value(s[1..])
  {
    if |s| > 1 {
      var init := s[..|s| - 1];
      ValueFront(init);
      assert init[1..] == s[1..][..|s[1..]| - 1];
    }
  }

  lemma {:induction false} Pow2Monotone(a: nat, b: nat)
    requires a <= b
    ensures Pow2(a) <= Pow2(b)
  {
    if a < b {
      Pow2Monotone(a, b - 1);
    }
  }

  /** Two digit strings of one length with one value are the same string. */
  lemma {:induction false} ValueInjective(a: string, b: string)
    requires |a| == |b| && AllDigits(a) && AllDigits(b)
    requires Value(a) == Value(b)
    ensures a == b
  {
    if a != [] {
      var n := |a| - 1;
      assert Value(a) == 2 * Value(a[..n]) + Bit(a[n]);
      assert Value(b) == 2 * Value(b[..n]) + Bit(b[n]);
      assert IsDigitSymbol(a[n]) && IsDigitSymbol(b[n]);
      assert a[n] == b[n];
      ValueInjective(a[..n], b[..n]);
      assert a == a[..n] + [a[n]] && b == b[..n] + [b[n]];
    }
  }

  /** The rank of a digit string determines its length. */
  lemma RankLength(s: string)
    ensures Pow2(|s|) <= Rank(s) < 2 * Pow2(|s|)
  {
    ValueBound(s);
  }

  /** Digit strings with one rank are the same string. */
  lemma RankInjective(a: string, b: string)
    requires AllDigits(a) && AllDigits(b)
    requires Rank(a) == Rank(b)
    ensures a == b
  {
    RankLength(a);
    RankLength(b);
    if |a| < |b| {
      Pow2Monotone(|a| + 1, |b|);
    } else if |b| < |a| {
      Pow2Monotone(|b| + 1, |a|);
    }
    ValueInjective(a, b);
  }

  /** Distinct positions of the enumeration give distinct labels. */
  lemma LabelsDistinct(i: nat, j: nat)
    requires NthLabel(i) == NthLabel(j)
    ensures i == j
  {
    LabelBodyRank(i);
    LabelBodyRank(j);
    assert LabelBody(i) == NthLabel(i)[..|NthLabel(i)| - 1];
    assert LabelBody(j) == NthLabel(j)[..|NthLabel(j)| - 1];
  }

  /** Every non-empty string of spaces and tabs is enumerated, at position rank - 2. */
  lemma EveryLabelEnumerated(s: string)
    requires |s| >= 1 && AllDigits(s)
    ensures Rank(s) >= 2
    ensures NthLabel(Rank(s) - 2) == s + "\n"
  {
    Pow2Monotone(1, |s|);
    LabelBodyRank(Rank(s) - 2);
    RankInjective(LabelBody(Rank(s) - 2), s);
  }

  /** Lexicographic order on strings with space before tab. */
  predicate LexLess(a: string, b: string)
  {
    a != [] && b != [] &&
    ((a[0] == ' ' && b[0] == '\t') || (a[0] == b[0] && LexLess(a[1..], b[1..])))
  }

  /** The enumeration order: shorter strings first, then lexicographic. */
  predicate ShortLex(a: string, b: string)
  {
    |a| < |b| || (|a| == |b| && LexLess(a, b))
  }

  /** On digit strings of one length, lexicographic order is numeric order. */
  lemma {:induction false} LexLessIsValueLess(a: string, b: string)
    requires |a| == |b| && AllDigits(a) && AllDigits(b)
    ensures LexLess(a, b) <==> Value(a) < Value(b)
  {
    if a != [] {
      ValueFront(a);
      ValueFront(b);
      ValueBound(a[1..]);
      ValueBound(b[1..]);
      LexLessIsValueLess(a[1..], b[1..]);
    }
  }

  /** On digit strings, the enumeration order is rank order. */
  lemma ShortLexIsRankLess(a: string, b: string)
    requires AllDigits(a) && AllDigits(b)
    ensures ShortLex(a, b) <==> Rank(a) < Rank(b)
  {
    RankLength(a);
    RankLength(b);
    if |a| < |b| {
      Pow2Monotone(|a| + 1, |b|);
    } else if |b| < |a| {
      Pow2Monotone(|b| + 1, |a|);
    } else {
      LexLessIsValueLess(a, b);
    }
  }

  /** A shared final linefeed does not change the lexicographic comparison. */
  lemma {:induction false} LexLessSuffix(a: string, b: string)
    requires |a| == |b| && AllDigits(a) && AllDigits(b)
    ensures LexLess(a + "\n", b + "\n") <==> LexLess(a, b)
  {
    if a != [] {
      assert (a + "\n")[1..] == a[1..] + "\n";
      assert (b + "\n")[1..] == b[1..] + "\n";
      LexLessSuffix(a[1..], b[1..]);
    }
  }

  /** Earlier positions give labels earlier in the enumeration order, and conversely. */
  lemma LabelOrder(i: nat, j: nat)
    ensures i < j <==> ShortLex(NthLabel(i), NthLabel(j))
    ensures i <= j ==> |NthLabel(i)| <= |NthLabel(j)|
  {
    var a, b := LabelBody(i), LabelBody(j);
    LabelBodyRank(i);
    LabelBodyRank(j);
    ShortLexIsRankLess(a, b);
    RankLength(a);
    RankLength(b);
    if |b| < |a| {
      Pow2Monotone(|b| + 1, |a|);
    } else if |a| == |b| {
      LexLessSuffix(a, b);
    }
  }

  /** The first labels: positions 0, 2 and 5. */
  lemma FirstLabels()
    ensures NthLabel(0) == " \n" && NthLabel(1) == "\t\n"
    ensures NthLabel(2) == "  \n" && NthLabel(5) == "\t\t\n"
  {
  }

  /**
   * All strings of length L over space and tab in the order in which the
   * generator's inner loop produces them: the first symbol varies slowest and
   * space comes before tab.
   */
  function Product(L: nat): (r: seq<string>)
    ensures |r| == Pow2(L)
  {
    if L == 0 then [""]
    else
      var p := Product(L - 1);
      seq(|p|, i requires 0 <= i < |p| => " " + p[i]) + seq(|p|, i requires 0 <= i < |p| => "\t" + p[i])
  }

  /** The t-th string of Product(L) has length L and denotes t. */
  lemma {:induction false} ProductAt(L: nat, t: nat)
    requires t < Pow2(L)
    ensures |Product(L)[t]| == L && AllDigits(Product(L)[t]) && Value(Product(L)[t]) == t
  {
    if L > 0 {
      var p := Product(L - 1);
      var h := Pow2(L - 1);
      var s := Product(L)[t];
      if t < h {
        assert s == " " + p[t];
        ProductAt(L - 1, t);
      } else {
        assert s == "\t" + p[t - h];
        ProductAt(L - 1, t - h);
      }
      assert s[1..] == p[if t < h then t else t - h];
      ValueFront(s);
    }
  }

  /** What the generator yields for the lengths 1 to L: each string of Product followed by a linefeed. */
  function Generated(L: nat): (r: seq<string>)
    ensures |r| == 2 * Pow2(L) - 2
  {
    if L == 0 then []
    else
      var p := Product(L);
      Generated(L - 1) + seq(|p|, i requires 0 <= i < |p| => p[i] + "\n")
  }

  /** A digit string of length L >= 1 and value t is the label at position 2^L - 2 + t. */
  lemma LabelOfDigits(L: nat, t: nat, s: string)
    requires L >= 1 && |s| == L && AllDigits(s) && Value(s) == t
    ensures Pow2(L) >= 2
    ensures NthLabel(Pow2(L) - 2 + t) == s + "\n"
  {
    Pow2Monotone(1, L);
    EveryLabelEnumerated(s);
  }

  /** The strings of length L are the labels at positions 2^L - 2 to 2^(L+1) - 3, in order. */
  lemma BlockOfLength(L: nat, t: nat)
    requires L >= 1 && t < Pow2(L)
    ensures Pow2(L) >= 2
    ensures NthLabel(Pow2(L) - 2 + t) == Product(L)[t] + "\n"
  {
    ProductAt(L, t);
    LabelOfDigits(L, t, Product(L)[t]);
  }

  /** The lengths below L come first in what the generator yields for the lengths up to L. */
  lemma GeneratedPrefix(L: nat, k: nat)
    requires L >= 1 && k < |Generated(L - 1)|
    ensures k < |Generated(L)| && Generated(L)[k] == Generated(L - 1)[k]
  {
  }

  /** The strings of length L come after them, in the order of Product(L). */
  lemma GeneratedBlock(L: nat, t: nat)
    requires L >= 1 && t < Pow2(L)
    ensures |Generated(L - 1)| + 2 == Pow2(L)
    ensures |Generated(L - 1)| + t < |Generated(L)|
    ensures Generated(L)[|Generated(L - 1)| + t] == Product(L)[t] + "\n"
  {
  }

  /** The closed form agrees with the generator: its k-th output is NthLabel(k). */
  lemma {:induction false} GeneratedIsNthLabel(L: nat, k: nat)
    requires k < |Generated(L)|
    ensures Generated(L)[k] == NthLabel(k)
  {
    var n := |Generated(L - 1)|;
    if k < n {
      GeneratedIsNthLabel(L - 1, k);
      GeneratedPrefix(L, k);
    } else {
      var t := k - n;
      GeneratedBlock(L, t);
      BlockOfLength(L, t);
      assert Pow2(L) - 2 + t == k;
    }
  }

  /** The first n labels of the enumeration. */
  ghost function Drawn(n: nat): seq<string>
  {
    seq(n, k requires 0 <= k => NthLabel(k))
  }

  /** order[k] holds drawn[k], for every position k of order. */
  ghost predicate Holds(labels: map<Option<string>, string>, order: seq<Option<string>>, drawn: seq<string>)
  {
    |order| == |drawn| && forall k :: 0 <= k < |order| ==> order[k] in labels && labels[order[k]] == drawn[k]
  }

  /** Every name of the cache appears in order. */
  ghost predicate Listed(labels: map<Option<string>, string>, order: seq<Option<string>>)
  {
    forall name :: name in labels ==> name in order
  }

  /**
   * The allocator's invariant, given the names in the order of their first
   * lookup: the k-th name holds the k-th label, the cursor counts the names,
   * and the cache holds no other name.
   */
  ghost predicate CacheInv(labels: map<Option<string>, string>, next: nat, order: seq<Option<string>>)
  {
    |labels| == next && Holds(labels, order, Drawn(next)) && Listed(labels, order)
  }

  /**
   * Looking a name up: a name seen before gets its stored label; a new name
   * draws the next label of the enumeration and the cursor advances.
   */
  function Allocate(labels: map<Option<string>, string>, next: nat, name: Option<string>)
    : (string, map<Option<string>, string>, nat)
  {
    if name in labels then (labels[name], labels, next)
    else (NthLabel(next), labels[name := NthLabel(next)], next + 1)
  }

  /** The names of a cache are distinct, and so are their labels. */
  lemma CacheInjective(labels: map<Option<string>, string>, next: nat, order: seq<Option<string>>)
    requires CacheInv(labels, next, order)
    ensures forall i, j :: 0 <= i < j < next ==> order[i] != order[j]
    ensures forall a, b :: a in labels && b in labels && a != b ==> labels[a] != labels[b]
  {
    forall i, j | 0 <= i < j < next
      ensures order[i] != order[j]
    {
      if order[i] == order[j] {
        LabelsDistinct(i, j);
      }
    }
    forall a, b | a in labels && b in labels && labels[a] == labels[b]
      ensures a == b
    {
      var i :| 0 <= i < |order| && order[i] == a;
      var j :| 0 <= j < |order| && order[j] == b;
      LabelsDistinct(i, j);
    }
  }

  /** Names looked up earlier hold labels earlier in the enumeration order. */
  lemma CacheOrdered(labels: map<Option<string>, string>, next: nat, order: seq<Option<string>>)
    requires CacheInv(labels, next, order)
    ensures forall i, j :: 0 <= i < j < next ==> ShortLex(labels[order[i]], labels[order[j]])
  {
    forall i, j | 0 <= i < j < next
      ensures ShortLex(labels[order[i]], labels[order[j]])
    {
      LabelOrder(i, j);
    }
  }

  /**
   * Allocation keeps the invariant (a new name joins the end of the order),
   * never changes a stored label, and advances the cursor only for a new name.
   */
  lemma AllocateKeepsInv(labels: map<Option<string>, string>, next: nat, order: seq<Option<string>>, name: Option<string>)
    requires CacheInv(labels, next, order)
    ensures var r := Allocate(labels, next, name);
      && CacheInv(r.1, r.2, if name in labels then order else order + [name])
      && name in r.1 && r.1[name] == r.0
      && (forall n :: n in labels ==> n in r.1 && r.1[n] == labels[n])
      && r.2 == (if name in labels then next else next + 1)
  {
    var r := Allocate(labels, next, name);
    if name in labels {
      assert r == (labels[name], labels, next);
    } else {
      assert r == (NthLabel(next), labels[name := NthLabel(next)], next + 1);
      AllocateNew(labels, next, order, name);
    }
  }

  /** The miss case of the allocation: the new name joins the end of the order. */
  lemma AllocateNew(labels: map<Option<string>, string>, next: nat, order: seq<Option<string>>, name: Option<string>)
    requires CacheInv(labels, next, order) && name !in labels
    ensures CacheInv(labels[name := NthLabel(next)], next + 1, order + [name])
  {
    var v := NthLabel(next);
    HoldsExtend(labels, order, Drawn(next), name, v);
    ListedExtend(labels, order, name, v);
    DrawnNext(next);
    assert |labels[name := v]| == next + 1;
  }

  /** Drawing one more label appends it. */
  lemma DrawnNext(n: nat)
    ensures Drawn(n + 1) == Drawn(n) + [NthLabel(n)]
  {
    assert forall k :: 0 <= k < n + 1 ==> Drawn(n + 1)[k] == (Drawn(n) + [NthLabel(n)])[k];
  }

  /** Storing a value under a new name appends that name and value to the positions. */
  lemma HoldsExtend(labels: map<Option<string>, string>, order: seq<Option<string>>, drawn: seq<string>,
                    name: Option<string>, v: string)
    requires Holds(labels, order, drawn) && name !in labels
    ensures Holds(labels[name := v], order + [name], drawn + [v])
  {
    var labels', order' := labels[name := v], order + [name];
    forall k | 0 <= k < |order'|
      ensures order'[k] in labels' && labels'[order'[k]] == (drawn + [v])[k]
    {
      if k < |order| {
        assert order'[k] == order[k];
        assert order[k] != name;
      }
    }
  }

  /** Storing a value under a new name and appending the name keeps every name listed. */
  lemma ListedExtend(labels: map<Option<string>, string>, order: seq<Option<string>>, name: Option<string>, v: string)
    requires Listed(labels, order)
    ensures Listed(labels[name := v], order + [name])
  {
    var labels', order' := labels[name := v], order + [name];
    forall n | n in labels'
      ensures n in order'
    {
      if n != name {
        assert n in order;
        var i :| 0 <= i < |order| && order[i] == n;
        assert order'[i] == n;
      } else {
        assert order'[|order|] == n;
      }
    }
  }

  /** A label cache together with the cursor of the label enumeration. */
  class LabelAllocator {
    var labels: map<Option<string>, string>
    var next: nat
    /** The names looked up so far, in the order of their first lookup. */
    ghost var order: seq<Option<string>>

    ghost predicate Valid()
      reads this
    {
      CacheInv(labels, next, order)
    }

    /** An empty cache whose cursor is at the first label. */
    constructor ()
      ensures Valid() && labels == map[] && next == 0 && order == []
    {
      labels := map[];
      next := 0;
      order := [];
    }

    /** The label of `name`, drawn from the enumeration on a first lookup. */
    method Get(name: Option<string>) returns (resolved: string)
      requires Valid()
      modifies this
      ensures Valid()
      ensures (resolved, labels, next) == Allocate(old(labels), old(next), name)
      ensures name in old(labels) ==> resolved == old(labels)[name] && labels == old(labels) && next == old(next)
      ensures name !in old(labels) ==>
        resolved == NthLabel(old(next)) && labels == old(labels)[name := resolved] && next == old(next) + 1
      ensures order == if name in old(labels) then old(order) else old(order) + [name]
    {
      AllocateKeepsInv(labels, next, order, name);
      if name in labels {
        resolved := labels[name];
      } else {
        resolved := NthLabel(next);
        labels := labels[name := resolved];
        next := next + 1;
        order := order + [name];
      }
    }
  }
}
