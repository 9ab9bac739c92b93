/** White space, and the order of texts: by the first differing character, a prefix first. */
module Texts {
  import opened Sorting

  /** White space, as `\s` and parseInt take it. */
  predicate IsSpace(c: char) {
    || c == ' ' || '\U{9}' <= c <= '\U{D}' || c == '\U{A0}' || c == '\U{1680}' || '\U{2000}' <= c <= '\U{200A}'
    || c in {'\U{2028}', '\U{2029}', '\U{202F}', '\U{205F}', '\U{3000}', '\U{FEFF}'}
  }

  predicate Leq(a: string, b: string) {
    a == "" || (b != "" && (a[0] < b[0] || (a[0] == b[0] && Leq(a[1..], b[1..]))))
  }

  predicate Less(a: string, b: string) {
    Leq(a, b) && a != b
  }

  lemma {:induction false} LeqTotal(a: string, b: string)
    ensures Leq(a, b) || Leq(b, a)
    ensures Leq(a, a)
  {
    if a != "" {
      LeqTotal(a[1..], if b == "" then "" else b[1..]);
    }
  }

  lemma {:induction false} LeqTransitive(a: string, b: string, c: string)
    requires Leq(a, b) && Leq(b, c)
    ensures Leq(a, c)
  {
    if a != "" {
      if a[0] == b[0] && b[0] == c[0] { LeqTransitive(a[1..], b[1..], c[1..]); }
    }
  }

  lemma {:induction false} LeqAntisymmetric(a: string, b: string)
    requires Leq(a, b) && Leq(b, a)
    ensures a == b
  {
    if a != "" {
      LeqAntisymmetric(a[1..], b[1..]);
      assert a == [a[0]] + a[1..] && b == [b[0]] + b[1..];
    }
  }

  /** Two texts that are alike up to `k`, where one ends or they differ, compare as they do there. */
  lemma {:induction false} LeqByFirstDifference(a: string, b: string, k: nat)
    requires k <= |a| && k <= |b| && a[..k] == b[..k]
    requires k < |a| && k < |b| ==> a[k] != b[k]
    ensures Leq(a, b) <==> k == |a| || (k < |b| && a[k] < b[k])
  {
    if k > 0 {
      assert a[0] == a[..k][0] == b[..k][0] == b[0];
      assert a[1..][..k - 1] == a[..k][1..] && b[1..][..k - 1] == b[..k][1..];
      LeqByFirstDifference(a[1..], b[1..], k - 1);
    }
  }

  lemma LeqOrders()
    ensures TotalPreorder(Leq)
  {
    forall a, b ensures Leq(a, b) || Leq(b, a) { LeqTotal(a, b); }
    forall a, b, c | Leq(a, b) && Leq(b, c) ensures Leq(a, c) { LeqTransitive(a, b, c); }
  }

  /** The texts of a set, in order. */
  method InOrder(texts: set<string>) returns (sorted: seq<string>)
    ensures Ordered(Leq, sorted)
    ensures forall t :: t in sorted <==> t in texts
    ensures forall i, j :: 0 <= i < j < |sorted| ==> sorted[i] != sorted[j]
  {
    var listed: seq<string> := [];
    var todo := texts;
    while todo != {}
      invariant todo <= texts
      invariant forall t :: t in listed <==> t in texts && t !in todo
      invariant forall i, j :: 0 <= i < j < |listed| ==> listed[i] != listed[j]
    {
      var t :| t in todo;
      listed := listed + [t];
      todo := todo - {t};
    }
    LeqOrders();
    sorted := Sort(Leq, listed);
    SortPermutes(Leq, listed);
    SortOrdered(Leq, listed);
    forall t ensures t in sorted <==> t in listed { MembersAgree(sorted, listed, t); }
    forall i, j | 0 <= i < j < |sorted| ensures sorted[i] != sorted[j] {
      DistinctCounts(listed, sorted[i]);
      if sorted[i] == sorted[j] { RepeatCounts(sorted, i, j); }
    }
  }
}
