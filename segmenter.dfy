/** The selection logic of the segmentation stage around K-means: the range
    of cluster counts, the elbow estimate, the operator's choice, the per
    cluster counts and subsets, and the output order. The inertias and the
    labels are produced by K-means and enter as inputs. */
module Segmenter {
  import opened Records
  import opened Text

  /** Largest cluster count tried for the elbow curve. */
  const MaxClusters: int := 10

  /** A row loaded from the table, ordered by id. */
  datatype StoredRow = StoredRow(id: int, customer: Customer)

  /** A loaded row with its Cluster column. */
  datatype LabeledRow = LabeledRow(id: int, customer: Customer, cluster: int)

  /** range(2, maxClusters + 1). */
  function KRange(maxClusters: int): (ks: seq<int>)
    ensures |ks| == if maxClusters >= 2 then maxClusters - 1 else 0
    ensures forall j :: 0 <= j < |ks| ==> ks[j] == j + 2
  {
    if maxClusters < 2 then [] else KRange(maxClusters - 1) + [maxClusters]
  }

  /** step2.py, lines 96-104: one fit per K in KRange, appending its inertia. The fit is
      the parameter inertiaOf (K-means with a fixed seed is a function of K). */
  method CollectInertias(maxClusters: int, inertiaOf: int -> real) returns (inertias: seq<real>)
    ensures |inertias| == |KRange(maxClusters)|
    ensures forall j :: 0 <= j < |inertias| ==> inertias[j] == inertiaOf(j + 2)
  {
    var ks := KRange(maxClusters);
    inertias := [];
    for j := 0 to |ks|
      invariant |inertias| == j
      invariant forall i :: 0 <= i < j ==> inertias[i] == inertiaOf(ks[i])
    {
      inertias := inertias + [inertiaOf(ks[j])];
    }
  }

  /** numpy.diff: the differences of neighbours. */
  function Diff(s: seq<real>): (d: seq<real>)
    ensures |d| == if |s| == 0 then 0 else |s| - 1
    ensures forall j :: 0 <= j < |d| ==> d[j] == s[j + 1] - s[j]
  {
    if |s| <= 1 then [] else [s[1] - s[0]] + Diff(s[1..])
  }

  /** step2.py, lines 118-119: numpy.diff applied twice. */
  function SecondDiff(s: seq<real>): (d: seq<real>)
    ensures |d| == if |s| < 2 then 0 else |s| - 2
    ensures forall j :: 0 <= j < |d| ==> d[j] == s[j + 2] - 2.0 * s[j + 1] + s[j]
  {
    Diff(Diff(s))
  }

  /** numpy.argmax: the first position of the largest value. */
  function ArgMax(s: seq<real>): (j: nat)
    requires |s| > 0
    ensures j < |s|
    ensures forall i :: 0 <= i < |s| ==> s[i] <= s[j]
    ensures forall i :: 0 <= i < j ==> s[i] < s[j]
  {
    if |s| == 1 then 0
    else
      var j := ArgMax(s[..|s| - 1]);
      assert forall i :: 0 <= i < |s| - 1 ==> s[..|s| - 1][i] == s[i];
      if s[|s| - 1] > s[j] then |s| - 1 else j
  }

  /** The discrete curvature of the elbow curve at cluster count k: the second
      difference centred on the inertia of k (inertias[m] belongs to K = m + 2). */
  function Curvature(inertias: seq<real>, k: int): real
    requires 3 <= k <= |inertias|
  {
    inertias[k - 1] - 2.0 * inertias[k - 2] + inertias[k - 3]
  }

  /** step2.py, line 120 as written: argmax(second_diff) + 2; None where argmax of the
      empty second difference raises. The result is 2 plus the first position
      of the largest second difference. */
  function ElbowAsWritten(inertias: seq<real>): (e: Option<int>)
    ensures e.None? <==> |inertias| < 3
    ensures e.Some? ==> 2 <= e.value <= |inertias| - 1
    ensures e.Some? ==> forall j :: 0 <= j < |inertias| - 2 ==>
                          SecondDiff(inertias)[j] <= SecondDiff(inertias)[e.value - 2]
    ensures e.Some? ==> forall j :: 0 <= j < e.value - 2 ==>
                          SecondDiff(inertias)[j] < SecondDiff(inertias)[e.value - 2]
  {
    var d := SecondDiff(inertias);
    if |d| == 0 then None else Some(ArgMax(d) + 2)
  }

  /** The elbow with the offset corrected: the first cluster count at which
      the curvature of the inertia curve is largest. */
  function Elbow(inertias: seq<real>): (e: Option<int>)
    ensures e.None? <==> |inertias| < 3
    ensures e.Some? ==> 3 <= e.value <= |inertias|
    ensures e.Some? ==> forall k :: 3 <= k <= |inertias| ==> Curvature(inertias, k) <= Curvature(inertias, e.value)
    ensures e.Some? ==> forall k :: 3 <= k < e.value ==> Curvature(inertias, k) < Curvature(inertias, e.value)
  {
    var d := SecondDiff(inertias);
    if |d| == 0 then None
    else
      var j := ArgMax(d);
      CurvatureIsSecondDiff(inertias);
      Some(j + 3)
  }

  lemma CurvatureIsSecondDiff(inertias: seq<real>)
    ensures forall k :: 3 <= k <= |inertias| ==> Curvature(inertias, k) == SecondDiff(inertias)[k - 3]
  {
    forall k | 3 <= k <= |inertias|
      ensures Curvature(inertias, k) == SecondDiff(inertias)[k - 3]
    {
      var d := SecondDiff(inertias);
      assert d[k - 3] == inertias[k - 1] - 2.0 * inertias[k - 2] + inertias[k - 3];
    }
  }

  /** The expression as written always names the cluster count one below the
      point of largest curvature. */
  lemma ElbowAsWrittenOffByOne(inertias: seq<real>)
    ensures ElbowAsWritten(inertias).Some? <==> Elbow(inertias).Some?
    ensures ElbowAsWritten(inertias).Some? ==> ElbowAsWritten(inertias).value == Elbow(inertias).value - 1
  {
  }

  /** Inertias 100, 50, 40, 35, 32 for K = 2..6 bend at K = 3 (curvatures 40,
      5, 2 at K = 3, 4, 5); the expression as written answers K = 2, a point
      at which no curvature is defined. */
  lemma ElbowAsWrittenMissesKnee()
    ensures ElbowAsWritten([100.0, 50.0, 40.0, 35.0, 32.0]) == Some(2)
    ensures Elbow([100.0, 50.0, 40.0, 35.0, 32.0]) == Some(3)
  {
    var s := [100.0, 50.0, 40.0, 35.0, 32.0];
    assert SecondDiff(s)[0] == 40.0 && SecondDiff(s)[1] == 5.0 && SecondDiff(s)[2] == 2.0;
  }

  /** With the script's K range (2..maxClusters, maxClusters >= 4) an elbow
      exists; as written it lies in 2..maxClusters-2, corrected in
      3..maxClusters-1. */
  lemma ElbowInRange(maxClusters: int, inertias: seq<real>)
    requires maxClusters >= 4 && |inertias| == |KRange(maxClusters)|
    ensures ElbowAsWritten(inertias).Some? && 2 <= ElbowAsWritten(inertias).value <= maxClusters - 2
    ensures Elbow(inertias).Some? && 3 <= Elbow(inertias).value <= maxClusters - 1
  {
  }

  /** step2.py, line 136: int(choice) when the stripped answer is a non-empty string of
      digits, else the default; no range check. */
  function ChooseK(answer: string, default: int): (k: int)
    ensures IsDigits(Strip(answer)) ==> k == DigitsValue(Strip(answer))
    ensures !IsDigits(Strip(answer)) ==> k == default
    ensures k != default ==> k >= 0 && IsDigits(Strip(answer))
  {
    var choice := Strip(answer);
    if IsDigits(choice) then DigitsValue(choice) else default
  }

  /** The script's own range 2..10: the elbow as written lies in 2..8 and
      the corrected one in 3..9. */
  lemma ScriptElbowInRange(inertias: seq<real>)
    requires |inertias| == |KRange(MaxClusters)|
    ensures ElbowAsWritten(inertias).Some? && 2 <= ElbowAsWritten(inertias).value <= 8
    ensures Elbow(inertias).Some? && 3 <= Elbow(inertias).value <= 9
  {
    ElbowInRange(MaxClusters, inertias);
  }

  /** A number typed with any surrounding whitespace is taken as typed. */
  lemma {:induction false} ChooseKReadsNumber(front: string, n: nat, back: string, default: int)
    requires AllSpace(front) && AllSpace(back)
    ensures ChooseK(front + Decimal(n) + back, default) == n
  {
    var s := Decimal(n);
    assert !IsSpace(s[0]) && !IsSpace(s[|s| - 1]);
    StripPadded(front, s, back);
    DecimalRoundTrip(n);
  }

  /** Pressing Enter (a blank answer) keeps the default. */
  lemma ChooseKBlankKeepsDefault(answer: string, default: int)
    requires AllSpace(answer)
    ensures ChooseK(answer, default) == default
  {
    StripPadded(answer, [], []);
    assert answer + [] + [] == answer;
  }

  /** An answer that holds anything but digits once stripped keeps the
      default; so does a typed negative number, since a sign is not a digit. */
  lemma ChooseKRejectsNonDigit(front: string, s: string, back: string, default: int)
    requires AllSpace(front) && AllSpace(back)
    requires s != [] && !IsSpace(s[0]) && !IsSpace(s[|s| - 1])
    requires exists k :: 0 <= k < |s| && !IsDigit(s[k])
    ensures ChooseK(front + s + back, default) == default
  {
    StripPadded(front, s, back);
  }

  lemma ChooseKRejectsSign(n: nat, default: int)
    ensures ChooseK("-" + Decimal(n), default) == default
  {
    var digits := Decimal(n);
    var s := "-" + digits;
    assert s != [] && !IsSpace(s[0]) && !IsSpace(s[|s| - 1]) && !IsDigit(s[0]) by {
      assert IsDigit(digits[|digits| - 1]);
      assert s[|s| - 1] == digits[|digits| - 1];
    }
    assert [] + s + [] == s;
    ChooseKRejectsNonDigit([], s, [], default);
  }

  /** step2.py, lines 120-136 together: the default offered to the operator is
      elbow_point as written; None where the elbow computation raises. */
  function SelectK(inertias: seq<real>, answer: string): (k: Option<int>)
    ensures k.None? <==> |inertias| < 3
    ensures k.Some? && !IsDigits(Strip(answer)) ==> k == ElbowAsWritten(inertias)
    ensures k.Some? && IsDigits(Strip(answer)) ==> k.value == DigitsValue(Strip(answer))
  {
    match ElbowAsWritten(inertias)
    case None => None
    case Some(e) => Some(ChooseK(answer, e))
  }

  /** Accepting the offered default picks one cluster fewer than the K of
      largest curvature. */
  lemma SelectKDefaultBelowKnee(inertias: seq<real>, answer: string)
    requires |inertias| >= 3 && !IsDigits(Strip(answer))
    ensures SelectK(inertias, answer).Some? && Elbow(inertias).Some?
    ensures SelectK(inertias, answer).value == Elbow(inertias).value - 1
  {
    ElbowAsWrittenOffByOne(inertias);
  }

  /** step2.py, line 145: df['Cluster'] = clusters, one label per loaded row. */
  function AttachClusters(rows: seq<StoredRow>, labels: seq<int>): (out: seq<LabeledRow>)
    requires |labels| == |rows|
    ensures ClusterColumn(out) == labels
    ensures Unlabel(out) == rows
  {
    seq(|rows|, i requires 0 <= i < |rows| => LabeledRow(rows[i].id, rows[i].customer, labels[i]))
  }

  function ClusterColumn(rows: seq<LabeledRow>): seq<int> {
    seq(|rows|, i requires 0 <= i < |rows| => rows[i].cluster)
  }

  function Unlabel(rows: seq<LabeledRow>): seq<StoredRow> {
    seq(|rows|, i requires 0 <= i < |rows| => StoredRow(rows[i].id, rows[i].customer))
  }

  /** How often label c occurs. */
  function CountOf(labels: seq<int>, c: int): (n: nat)
    ensures n <= |labels|
    ensures n == 0 <==> c !in labels
  {
    if labels == [] then 0
    else (if labels[0] == c then 1 else 0) + CountOf(labels[1..], c)
  }

  /** The counts of the labels 0..k-1 added up. */
  function SumCounts(labels: seq<int>, k: int): nat {
    if k <= 0 then 0 else SumCounts(labels, k - 1) + CountOf(labels, k - 1)
  }

  lemma {:induction false} SumCountsCons(l: int, rest: seq<int>, k: int)
    ensures SumCounts([l] + rest, k) == SumCounts(rest, k) + if 0 <= l < k then 1 else 0
  {
    if k > 0 {
      assert ([l] + rest)[1..] == rest;
      SumCountsCons(l, rest, k - 1);
    }
  }

  lemma {:induction false} SumCountsEmpty(k: int)
    ensures SumCounts([], k) == 0
  {
    if k > 0 {
      SumCountsEmpty(k - 1);
    }
  }

  /** With every label in [0, k), the counts of the k clusters add up to the
      number of rows. */
  lemma {:induction false} CountsCoverRows(labels: seq<int>, k: int)
    requires forall i :: 0 <= i < |labels| ==> 0 <= labels[i] < k
    ensures SumCounts(labels, k) == |labels|
  {
    if labels != [] {
      var rest := labels[1..];
      assert labels == [labels[0]] + rest;
      CountsCoverRows(rest, k);
      SumCountsCons(labels[0], rest, k);
    } else {
      SumCountsEmpty(k);
    }
  }

  /** step2.py, line 158: value_counts().sort_index() for labels in [0, k): one
      (label, count) pair per label that occurs, in increasing label order. */
  function ValueCounts(labels: seq<int>, k: int): (vc: seq<(int, nat)>)
    ensures forall p :: 0 <= p < |vc| ==> 0 <= vc[p].0 < k && vc[p].1 == CountOf(labels, vc[p].0) > 0
  {
    if k <= 0 then []
    else
      var n := CountOf(labels, k - 1);
      var vc := ValueCounts(labels, k - 1);
      if n > 0 then vc + [(k - 1, n)] else vc
  }

  /** The pairs come in strictly increasing label order (sort_index). */
  lemma {:induction false} ValueCountsIncreasing(labels: seq<int>, k: int)
    ensures forall p, q :: 0 <= p < q < |ValueCounts(labels, k)| ==>
              ValueCounts(labels, k)[p].0 < ValueCounts(labels, k)[q].0
  {
    if k > 0 {
      ValueCountsIncreasing(labels, k - 1);
    }
  }

  /** Every label in [0, k) that occurs is listed, with its count. */
  lemma {:induction false} ValueCountsListsLabel(labels: seq<int>, k: int, c: int)
    requires 0 <= c < k && c in labels
    ensures (c, CountOf(labels, c)) in ValueCounts(labels, k)
  {
    if c < k - 1 {
      ValueCountsListsLabel(labels, k - 1, c);
    }
  }

  function SumPairs(vc: seq<(int, nat)>): nat {
    if vc == [] then 0 else SumPairs(vc[..|vc| - 1]) + vc[|vc| - 1].1
  }

  lemma SumPairsAppend(vc: seq<(int, nat)>, p: (int, nat))
    ensures SumPairs(vc + [p]) == SumPairs(vc) + p.1
  {
    assert (vc + [p])[..|vc|] == vc;
  }

  /** step2.py, lines 158-162: with every label in [0, k), the listed counts add up to
      the number of rows. */
  lemma ValueCountsCoverRows(labels: seq<int>, k: int)
    requires forall i :: 0 <= i < |labels| ==> 0 <= labels[i] < k
    ensures SumPairs(ValueCounts(labels, k)) == |labels|
  {
    ValueCountsSum(labels, k);
    CountsCoverRows(labels, k);
  }

  lemma {:induction false} ValueCountsSum(labels: seq<int>, k: int)
    ensures SumPairs(ValueCounts(labels, k)) == SumCounts(labels, k)
  {
    if k > 0 {
      var vc := ValueCounts(labels, k - 1);
      var n := CountOf(labels, k - 1);
      assert SumPairs(vc) == SumCounts(labels, k - 1) by {
        ValueCountsSum(labels, k - 1);
      }
      if n > 0 {
        assert SumPairs(vc + [(k - 1, n)]) == SumPairs(vc) + n by {
          SumPairsAppend(vc, (k - 1, n));
        }
      }
    }
  }

  /** step2.py, line 172: df[df['Cluster'] == c], in row order. */
  function Members(rows: seq<LabeledRow>, c: int): (sub: seq<LabeledRow>)
    ensures |sub| <= |rows|
  {
    if rows == [] then []
    else (if rows[0].cluster == c then [rows[0]] else []) + Members(rows[1..], c)
  }

  /** The subset for c holds rows of the frame labelled c, and every such row. */
  lemma {:induction false} MembersAreLabelled(rows: seq<LabeledRow>, c: int)
    ensures forall r :: r in Members(rows, c) ==> r in rows && r.cluster == c
    ensures forall i :: 0 <= i < |rows| && rows[i].cluster == c ==> rows[i] in Members(rows, c)
  {
    if rows != [] {
      MembersAreLabelled(rows[1..], c);
      assert forall i :: 1 <= i < |rows| ==> rows[i] == rows[1..][i - 1];
    }
  }

  /** Each subset has as many rows as value_counts reports for its label. */
  lemma {:induction false} MembersCount(rows: seq<LabeledRow>, c: int)
    ensures |Members(rows, c)| == CountOf(ClusterColumn(rows), c)
  {
    if rows != [] {
      MembersCount(rows[1..], c);
      assert ClusterColumn(rows)[1..] == ClusterColumn(rows[1..]);
    }
  }

  /** Subsets for different labels share no row. */
  lemma MembersDisjoint(rows: seq<LabeledRow>, c: int, d: int)
    requires c != d
    ensures multiset(Members(rows, c)) !! multiset(Members(rows, d))
  {
    MembersAreLabelled(rows, c);
    MembersAreLabelled(rows, d);
  }

  /** step2.py, lines 171-172: the subsets for c in range(k), in label order. */
  function Subsets(rows: seq<LabeledRow>, k: nat): (ss: seq<seq<LabeledRow>>)
    ensures |ss| == k
    ensures forall c :: 0 <= c < k ==> ss[c] == Members(rows, c)
  {
    seq(k, c requires 0 <= c < k => Members(rows, c))
  }

  /** All rows of a list of subsets together, as a multiset. */
  function Union(ss: seq<seq<LabeledRow>>): multiset<LabeledRow> {
    if ss == [] then multiset{} else Union(ss[..|ss| - 1]) + multiset(ss[|ss| - 1])
  }

  /** Row x occurs in the subset for c as often as in the frame when it is
      labelled c, and not at all otherwise. */
  lemma {:induction false} MembersMultiplicity(rows: seq<LabeledRow>, c: int, x: LabeledRow)
    ensures multiset(Members(rows, c))[x] == if x.cluster == c then multiset(rows)[x] else 0
  {
    if rows != [] {
      var head := if rows[0].cluster == c then [rows[0]] else [];
      assert multiset(Members(rows, c)) == multiset(head) + multiset(Members(rows[1..], c));
      assert multiset(rows) == multiset{rows[0]} + multiset(rows[1..]) by {
        assert rows == [rows[0]] + rows[1..];
      }
      MembersMultiplicity(rows[1..], c, x);
    }
  }

  /** When x occurs n times in the subset at its own label and nowhere else,
      it occurs n times in the union, or not at all if its label is past the
      end of the list. */
  lemma {:induction false} UnionMultiplicity(ss: seq<seq<LabeledRow>>, x: LabeledRow, n: nat)
    requires forall c :: 0 <= c < |ss| ==> multiset(ss[c])[x] == if x.cluster == c then n else 0
    ensures Union(ss)[x] == if 0 <= x.cluster < |ss| then n else 0
  {
    if ss != [] {
      var init := ss[..|ss| - 1];
      assert forall c :: 0 <= c < |init| ==> init[c] == ss[c];
      UnionMultiplicity(init, x, n);
    }
  }

  /** step2.py, lines 171-172: with every label in [0, k), the subsets for
      range(optimal_k) together hold every row exactly once. */
  lemma MembersPartitionRows(rows: seq<LabeledRow>, k: nat)
    requires forall i :: 0 <= i < |rows| ==> 0 <= rows[i].cluster < k
    ensures Union(Subsets(rows, k)) == multiset(rows)
  {
    var ss := Subsets(rows, k);
    forall x
      ensures Union(ss)[x] == multiset(rows)[x]
    {
      forall c | 0 <= c < k
        ensures multiset(ss[c])[x] == if x.cluster == c then multiset(rows)[x] else 0
      {
        MembersMultiplicity(rows, c, x);
      }
      UnionMultiplicity(ss, x, multiset(rows)[x]);
    }
  }

  ghost predicate SortedById(s: seq<LabeledRow>) {
    forall i, j :: 0 <= i < j < |s| ==> s[i].id <= s[j].id
  }

  lemma PrependSorted(y: LabeledRow, t: seq<LabeledRow>)
    requires SortedById(t)
    requires forall k :: 0 <= k < |t| ==> y.id <= t[k].id
    ensures SortedById([y] + t)
  {
    assert forall k :: 1 <= k <= |t| ==> ([y] + t)[k] == t[k - 1];
  }

  /** Every row of t is x or a row of u, so a bound below both holds for t. */
  lemma BoundAfterInsert(y: LabeledRow, x: LabeledRow, u: seq<LabeledRow>, t: seq<LabeledRow>)
    requires multiset(t) == multiset(u) + multiset{x}
    requires y.id <= x.id
    requires forall k :: 0 <= k < |u| ==> y.id <= u[k].id
    ensures forall k :: 0 <= k < |t| ==> y.id <= t[k].id
  {
    forall k | 0 <= k < |t|
      ensures y.id <= t[k].id
    {
      assert t[k] in multiset(t);
      if t[k] != x {
        assert t[k] in multiset(u);
      }
    }
  }

  function InsertById(x: LabeledRow, s: seq<LabeledRow>): (r: seq<LabeledRow>)
    requires SortedById(s)
    ensures SortedById(r)
    ensures multiset(r) == multiset(s) + multiset{x}
    ensures |r| == |s| + 1
  {
    if s == [] || x.id <= s[0].id then
      PrependSorted(x, s);
      [x] + s
    else
      var t := InsertById(x, s[1..]);
      BoundAfterInsert(s[0], x, s[1..], t);
      PrependSorted(s[0], t);
      assert s == [s[0]] + s[1..];
      [s[0]] + t
  }

  /** step2.py, line 184: sort_values('id'). */
  function SortById(s: seq<LabeledRow>): (r: seq<LabeledRow>)
    ensures SortedById(r)
    ensures multiset(r) == multiset(s)
  {
    if s == [] then []
    else
      assert s == [s[0]] + s[1..];
      InsertById(s[0], SortById(s[1..]))
  }

  /** The rows are loaded ORDER BY id, so sorting the labelled frame by id
      leaves its order unchanged. */
  lemma {:induction false} SortKeepsLoadOrder(s: seq<LabeledRow>)
    requires SortedById(s)
    ensures SortById(s) == s
  {
    if s != [] {
      SortKeepsLoadOrder(s[1..]);
    }
  }

  /** step2.py, lines 145 and 184: the output rows, the loaded rows with their labels
      attached, sorted by id. */
  function OutputRows(rows: seq<StoredRow>, labels: seq<int>): (out: seq<LabeledRow>)
    requires |labels| == |rows|
    ensures SortedById(out)
    ensures multiset(out) == multiset(AttachClusters(rows, labels))
  {
    SortById(AttachClusters(rows, labels))
  }
}
