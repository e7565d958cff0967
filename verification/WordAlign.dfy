/**
  Word alignment by dynamic programming: the table, the walk back through it, the runs of agreement
  and disagreement, and the transcript a rule resolves them to.
*/
module WordAlign {

  type Word = string

  /** One aligned step: the same word, two different words, a word of the first only, a word of the second only. */
  datatype Op = Same(i: nat, j: nat) | Swap(i: nat, j: nat) | OnlyP(i: nat) | OnlyQ(j: nat)

  function Cost(ops: seq<Op>): nat { if ops == [] then 0 else (if ops[0].Same? then 0 else 1) + Cost(ops[1..]) }

  /** The steps take exactly the rest of `a` from `i` and the rest of `b` from `j`, each word once and in order. */
  predicate Aligns(ops: seq<Op>, a: seq<Word>, b: seq<Word>, i: nat, j: nat)
    requires i <= |a| && j <= |b|
  {
    if ops == [] then i == |a| && j == |b|
    else
      match ops[0]
      case Same(x, y) => x == i < |a| && y == j < |b| && a[i] == b[j] && Aligns(ops[1..], a, b, i + 1, j + 1)
      case Swap(x, y) => x == i < |a| && y == j < |b| && a[i] != b[j] && Aligns(ops[1..], a, b, i + 1, j + 1)
      case OnlyP(x) => x == i < |a| && Aligns(ops[1..], a, b, i + 1, j)
      case OnlyQ(y) => y == j < |b| && Aligns(ops[1..], a, b, i, j + 1)
  }

  function Min(x: nat, y: nat): nat { if x <= y then x else y }

  /** The recurrence the table is filled by. */
  function Distance(a: seq<Word>, b: seq<Word>, i: nat, j: nat): nat
    requires i <= |a| && j <= |b|
    decreases i + j
  {
    if i == 0 then j
    else if j == 0 then i
    else Min(Distance(a, b, i - 1, j - 1) + (if a[i - 1] != b[j - 1] then 1 else 0),
             Min(Distance(a, b, i - 1, j) + 1, Distance(a, b, i, j - 1) + 1))
  }

  /** No alignment of what is left costs less than the table says it must. */
  lemma {:induction false} NoCheaper(ops: seq<Op>, a: seq<Word>, b: seq<Word>, i: nat, j: nat)
    requires i <= |a| && j <= |b| && Aligns(ops, a, b, i, j)
    ensures Distance(a, b, |a|, |b|) <= Distance(a, b, i, j) + Cost(ops)
  {
    if ops != [] {
      match ops[0]
      case Same(_, _) => NoCheaper(ops[1..], a, b, i + 1, j + 1);
      case Swap(_, _) => NoCheaper(ops[1..], a, b, i + 1, j + 1);
      case OnlyP(_) => NoCheaper(ops[1..], a, b, i + 1, j);
      case OnlyQ(_) => NoCheaper(ops[1..], a, b, i, j + 1);
    }
  }

  /** An alignment of least cost among all alignments of the two word lists. */
  ghost predicate IsOptimal(ops: seq<Op>, a: seq<Word>, b: seq<Word>) {
    Aligns(ops, a, b, 0, 0) && forall other: seq<Op> :: Aligns(other, a, b, 0, 0) ==> Cost(ops) <= Cost(other)
  }

  lemma DistanceIs(a: seq<Word>, b: seq<Word>, i: nat, j: nat)
    requires i <= |a| && j <= |b|
    ensures i == 0 ==> Distance(a, b, i, j) == j
    ensures j == 0 ==> Distance(a, b, i, j) == i
    ensures i > 0 && j > 0 ==>
              Distance(a, b, i, j) == Min(Distance(a, b, i - 1, j - 1) + (if a[i - 1] != b[j - 1] then 1 else 0),
                                          Min(Distance(a, b, i - 1, j) + 1, Distance(a, b, i, j - 1) + 1))
  {
  }

  method FillRow(D: array2<nat>, a: seq<Word>, b: seq<Word>, i: nat)
    requires D.Length0 == |a| + 1 && D.Length1 == |b| + 1 && 1 <= i <= |a| && D[i, 0] == i
    requires forall x, y :: 0 <= x < i && 0 <= y <= |b| ==> D[x, y] == Distance(a, b, x, y)
    modifies D
    ensures forall y :: 0 <= y <= |b| ==> D[i, y] == Distance(a, b, i, y)
    ensures forall x, y :: 0 <= x <= |a| && 0 <= y <= |b| && x != i ==> D[x, y] == old(D[x, y])
  {
    hide Distance;
    DistanceIs(a, b, i, 0);
    for j := 1 to |b| + 1
      invariant forall y :: 0 <= y < j ==> D[i, y] == Distance(a, b, i, y)
      invariant forall x, y :: 0 <= x <= |a| && 0 <= y <= |b| && x != i ==> D[x, y] == old(D[x, y])
    {
      DistanceIs(a, b, i, j);
      var swap := D[i - 1, j - 1] + (if a[i - 1] != b[j - 1] then 1 else 0);
      D[i, j] := Min(swap, Min(D[i - 1, j] + 1, D[i, j - 1] + 1));
    }
  }

  method FillTable(a: seq<Word>, b: seq<Word>) returns (D: array2<nat>)
    ensures fresh(D) && D.Length0 == |a| + 1 && D.Length1 == |b| + 1
    ensures forall x, y :: 0 <= x <= |a| && 0 <= y <= |b| ==> D[x, y] == Distance(a, b, x, y)
  {
    hide Distance;
    var n, m := |a|, |b|;
    D := new nat[n + 1, m + 1]((_, _) => 0);
    for i := 0 to n + 1
      invariant forall x :: 0 <= x < i ==> D[x, 0] == x
    {
      D[i, 0] := i;
    }
    for j := 0 to m + 1
      invariant forall x :: 0 < x <= n ==> D[x, 0] == x
      invariant forall y :: 0 <= y < j ==> D[0, y] == y
    {
      D[0, j] := j;
    }
    forall y | 0 <= y <= m ensures D[0, y] == Distance(a, b, 0, y) { DistanceIs(a, b, 0, y); }
    for i := 1 to n + 1
      invariant forall x :: i <= x <= n ==> D[x, 0] == x
      invariant forall x, y :: 0 <= x < i && 0 <= y <= m ==> D[x, y] == Distance(a, b, x, y)
    {
      FillRow(D, a, b, i);
    }
  }

  /** The walk back through the table has exactly the cost in its corner, and no alignment costs less. */
  method Align(a: seq<Word>, b: seq<Word>) returns (ops: seq<Op>)
    ensures IsOptimal(ops, a, b) && Cost(ops) == Distance(a, b, |a|, |b|)
  {
    var D := FillTable(a, b);
    hide Distance;
    DistanceIs(a, b, 0, 0);
    ops := [];
    var i, j := |a|, |b|;
    while i > 0 || j > 0
      invariant 0 <= i <= |a| && 0 <= j <= |b|
      invariant forall x, y :: 0 <= x <= |a| && 0 <= y <= |b| ==> D[x, y] == Distance(a, b, x, y)
      invariant Aligns(ops, a, b, i, j) && Cost(ops) + Distance(a, b, i, j) == Distance(a, b, |a|, |b|)
      decreases i + j
    {
      ghost var rest := ops;
      DistanceIs(a, b, i, j);
      if i > 0 { DistanceIs(a, b, i - 1, j); }
      if j > 0 { DistanceIs(a, b, i, j - 1); }
      if i > 0 && j > 0 && D[i, j] == D[i - 1, j - 1] + (if a[i - 1] != b[j - 1] then 1 else 0) {
        ops := [if a[i - 1] == b[j - 1] then Same(i - 1, j - 1) else Swap(i - 1, j - 1)] + ops;
        i, j := i - 1, j - 1;
      } else if i > 0 && D[i, j] == D[i - 1, j] + 1 {
        ops := [OnlyP(i - 1)] + ops;
        i := i - 1;
      } else {
        ops := [OnlyQ(j - 1)] + ops;
        j := j - 1;
      }
      assert ops[1..] == rest;
    }
    forall other: seq<Op> | Aligns(other, a, b, 0, 0) ensures Cost(ops) <= Cost(other) {
      NoCheaper(other, a, b, 0, 0);
    }
  }

  // ------------------------------------------------------------- runs

  datatype Run = Agreed(op: Op) | Disputed(ops: seq<Op>)

  function OpsOf(run: Run): seq<Op> { match run case Agreed(op) => [op] case Disputed(ops) => ops }

  function Flatten(runs: seq<Run>): seq<Op> { if runs == [] then [] else OpsOf(runs[0]) + Flatten(runs[1..]) }

  predicate GoodRun(run: Run) {
    match run
    case Agreed(op) => op.Same?
    case Disputed(ops) => ops != [] && forall k :: 0 <= k < |ops| ==> !ops[k].Same?
  }

  /** Agreed words stand alone, and disputes are as long as they can be. */
  predicate GoodRuns(runs: seq<Run>) {
    (forall k :: 0 <= k < |runs| ==> GoodRun(runs[k]))
    && forall k :: 0 < k < |runs| ==> runs[k - 1].Agreed? || runs[k].Agreed?
  }

  lemma {:induction false} FlattenJoin(x: seq<Run>, y: seq<Run>)
    ensures Flatten(x + y) == Flatten(x) + Flatten(y)
  {
    if x == [] {
      assert x + y == y;
    } else {
      assert (x + y)[1..] == x[1..] + y;
      FlattenJoin(x[1..], y);
    }
  }

  lemma AddRun(out: seq<Run>, run: Run)
    requires GoodRuns(out) && GoodRun(run) && (out != [] ==> run.Agreed? || out[|out| - 1].Agreed?)
    ensures GoodRuns(out + [run]) && Flatten(out + [run]) == Flatten(out) + OpsOf(run)
  {
    hide GoodRun, Flatten;
    FlattenJoin(out, [run]);
    FlattenOne(run);
  }

  lemma FlattenOne(run: Run)
    ensures Flatten([run]) == OpsOf(run)
  {
    assert [run][1..] == [];
    assert OpsOf(run) + [] == OpsOf(run);
  }

  method Runs(ops: seq<Op>) returns (out: seq<Run>)
    ensures Flatten(out) == ops && GoodRuns(out)
  {
    hide Flatten, GoodRuns;
    out := [];
    EmptyRuns();
    var cur: seq<Op> := [];
    for k := 0 to |ops|
      invariant Flatten(out) + cur == ops[..k] && GoodRuns(out)
      invariant (forall x :: 0 <= x < |cur| ==> !cur[x].Same?) && (out != [] ==> out[|out| - 1].Agreed?)
    {
      var op := ops[k];
      assert ops[..k + 1] == ops[..k] + [op];
      if op.Same? {
        if cur != [] {
          AddRun(out, Disputed(cur));
          out := out + [Disputed(cur)];
          cur := [];
        }
        AddRun(out, Agreed(op));
        out := out + [Agreed(op)];
      } else {
        cur := cur + [op];
      }
    }
    if cur != [] {
      AddRun(out, Disputed(cur));
      out := out + [Disputed(cur)];
    }
    assert ops[..|ops|] == ops;
  }

  lemma EmptyRuns()
    ensures Flatten([]) == [] && GoodRuns([])
  {
  }

  // ------------------------------------------------------------- resolving

  function PWords(p: seq<Word>, ops: seq<Op>): seq<Word>
    requires forall k :: 0 <= k < |ops| ==> !ops[k].OnlyQ? ==> ops[k].i < |p|
  {
    if ops == [] then [] else (if ops[0].OnlyQ? then [] else [p[ops[0].i]]) + PWords(p, ops[1..])
  }

  function QWords(q: seq<Word>, ops: seq<Op>): seq<Word>
    requires forall k :: 0 <= k < |ops| ==> !ops[k].OnlyP? ==> ops[k].j < |q|
  {
    if ops == [] then [] else (if ops[0].OnlyP? then [] else [q[ops[0].j]]) + QWords(q, ops[1..])
  }

  /** Where the rest of an alignment starts after its first step. */
  lemma FirstStep(ops: seq<Op>, p: seq<Word>, q: seq<Word>, i: nat, j: nat)
    requires i <= |p| && j <= |q| && ops != [] && Aligns(ops, p, q, i, j)
    ensures var op := ops[0];
            var x, y := if op.OnlyQ? then i else i + 1, if op.OnlyP? then j else j + 1;
            x <= |p| && y <= |q| && Aligns(ops[1..], p, q, x, y) && (!op.OnlyQ? ==> op.i == i)
            && (!op.OnlyP? ==> op.j == j)
            && (op.Same? ==> p[i] == q[j])
  {
  }

  predicate Indexed(ops: seq<Op>, p: seq<Word>, q: seq<Word>) {
    forall k :: 0 <= k < |ops| ==> (!ops[k].OnlyQ? ==> ops[k].i < |p|) && (!ops[k].OnlyP? ==> ops[k].j < |q|)
  }

  /** The words a stretch of an alignment takes from each side are the next words of that side. */
  lemma {:induction false} Stretch(ops: seq<Op>, rest: seq<Op>, p: seq<Word>, q: seq<Word>, i: nat, j: nat)
    returns (x: nat, y: nat)
    requires i <= |p| && j <= |q| && Aligns(ops + rest, p, q, i, j)
    ensures Indexed(ops, p, q)
    ensures i <= x <= |p| && j <= y <= |q| && Aligns(rest, p, q, x, y)
    ensures PWords(p, ops) == p[i..x] && QWords(q, ops) == q[j..y]
  {
    hide Aligns;
    if ops == [] {
      assert ops + rest == rest;
      x, y := i, j;
    } else {
      var op := ops[0];
      assert (ops + rest)[1..] == ops[1..] + rest && (ops + rest)[0] == op;
      FirstStep(ops + rest, p, q, i, j);
      var i', j' := if op.OnlyQ? then i else i + 1, if op.OnlyP? then j else j + 1;
      x, y := Stretch(ops[1..], rest, p, q, i', j');
      assert forall k :: 1 <= k < |ops| ==> ops[k] == ops[1..][k - 1];
      TakeOne(p, i, x);
      TakeOne(q, j, y);
    }
  }

  lemma TakeOne(s: seq<Word>, i: nat, x: nat)
    requires i <= x <= |s|
    ensures i < x ==> s[i..x] == [s[i]] + s[i + 1..x]
  {
  }

  /** The transcript so far: what each rule law says it must be. */
  ghost predicate Settled(rule: (seq<Word>, seq<Word>) -> seq<Word>, p: seq<Word>, q: seq<Word>,
                          i: nat, j: nat, out: seq<Word>)
    requires i <= |p| && j <= |q|
  {
    ((forall x, y :: rule(x, y) == x) ==> out == p[..i])
    && ((forall x, y :: rule(x, y) == y) ==> out == q[..j])
    && (p == q ==> out == p[..i])
  }

  lemma Advance(rule: (seq<Word>, seq<Word>) -> seq<Word>, p: seq<Word>, q: seq<Word>, i: nat, j: nat, x: nat, y: nat,
                out: seq<Word>, more: seq<Word>)
    requires i <= x <= |p| && j <= y <= |q| && Settled(rule, p, q, i, j, out)
    requires (more == p[i..x] && more == q[j..y]) || (p != q && more == rule(p[i..x], q[j..y]))
    ensures Settled(rule, p, q, x, y, out + more)
  {
    assert p[..x] == p[..i] + p[i..x] && q[..y] == q[..j] + q[j..y];
  }

  predicate AllIndexed(groups: seq<Run>, p: seq<Word>, q: seq<Word>) {
    forall k :: 0 <= k < |groups| ==> GoodRun(groups[k]) && Indexed(OpsOf(groups[k]), p, q)
  }

  /** What one run contributes: the agreed word, or what the rule makes of the words in dispute. */
  function Spoken(rule: (seq<Word>, seq<Word>) -> seq<Word>, p: seq<Word>, q: seq<Word>, run: Run): seq<Word>
    requires GoodRun(run) && Indexed(OpsOf(run), p, q)
  {
    match run
    case Agreed(op) => assert OpsOf(run)[0] == op; [p[op.i]]
    case Disputed(ops) => rule(PWords(p, ops), QWords(q, ops))
  }

  function Transcript(rule: (seq<Word>, seq<Word>) -> seq<Word>, p: seq<Word>, q: seq<Word>,
                      groups: seq<Run>): seq<Word>
    requires AllIndexed(groups, p, q)
  {
    if groups == [] then []
    else Transcript(rule, p, q, groups[..|groups| - 1]) + Spoken(rule, p, q, groups[|groups| - 1])
  }

  /**
    The transcript a rule makes of the two: of a best alignment, agreed words stand and each longest dispute is what the
    rule says. Keeping the first side everywhere gives the first back, keeping the second gives the second, and no rule
    changes what nobody disputes.
  */
  method Resolve(p: seq<Word>, q: seq<Word>, rule: (seq<Word>, seq<Word>) -> seq<Word>)
    returns (out: seq<Word>, ghost groups: seq<Run>)
    ensures IsOptimal(Flatten(groups), p, q) && GoodRuns(groups)
    ensures AllIndexed(groups, p, q) && out == Transcript(rule, p, q, groups)
    ensures (forall x, y :: rule(x, y) == x) ==> out == p
    ensures (forall x, y :: rule(x, y) == y) ==> out == q
    ensures p == q ==> out == p
  {
    hide Aligns, Flatten, Cost, Distance, Settled, Indexed, Transcript, Spoken, PWords, QWords, OpsOf, IsOptimal;
    var ops := Align(p, q);
    var runs := Runs(ops);
    groups := runs;
    out := [];
    ghost var i, j := 0, 0;
    OptimalAligns(ops, p, q);
    if p == q { DiagonalIsFree(p, |p|); }
    assert runs[0..] == runs && runs[..0] == [];
    assert Settled(rule, p, q, 0, 0, []) by { NothingSettled(rule, p, q); }
    NothingSaid(rule, p, q);
    for k := 0 to |runs|
      invariant 0 <= i <= |p| && 0 <= j <= |q| && Aligns(Flatten(runs[k..]), p, q, i, j)
      invariant Settled(rule, p, q, i, j, out) && (p == q ==> Cost(Flatten(runs[k..])) == 0)
      invariant AllIndexed(runs[..k], p, q) && out == Transcript(rule, p, q, runs[..k])
    {
      var group := OpsOf(runs[k]);
      ghost var rest := Flatten(runs[k + 1..]);
      assert Flatten(runs[k..]) == group + rest by { FlattenFirst(runs, k); }
      ghost var x, y := Stretch(group, rest, p, q, i, j);
      CostJoin(group, rest);
      OneMoreRun(rule, p, q, runs, k);
      if runs[k].Agreed? {
        assert group == [runs[k].op] by { OpsAre(runs[k]); }
        AgreedWord(group, rest, p, q, i, j);
        Advance(rule, p, q, i, j, x, y, out, [p[runs[k].op.i]]);
        SpokenAgreed(rule, p, q, runs[k]);
        out := out + [p[runs[k].op.i]];
      } else {
        assert group == runs[k].ops by { OpsAre(runs[k]); }
        assert p != q by { DisputeCosts(group); }
        WordsAreThere(group, p, q);
        Advance(rule, p, q, i, j, x, y, out, rule(PWords(p, group), QWords(q, group)));
        SpokenDisputed(rule, p, q, runs[k]);
        out := out + rule(PWords(p, group), QWords(q, group));
      }
      i, j := x, y;
    }
    assert runs[..|runs|] == runs;
    AllSettled(rule, p, q, i, j, runs, out);
  }

  lemma OptimalAligns(ops: seq<Op>, p: seq<Word>, q: seq<Word>)
    requires IsOptimal(ops, p, q)
    ensures Aligns(ops, p, q, 0, 0)
  {
    hide Aligns, Cost;
  }

  lemma OpsAre(run: Run)
    ensures OpsOf(run) == if run.Agreed? then [run.op] else run.ops
  {
  }

  lemma NothingSaid(rule: (seq<Word>, seq<Word>) -> seq<Word>, p: seq<Word>, q: seq<Word>)
    ensures AllIndexed([], p, q) && Transcript(rule, p, q, []) == []
  {
  }

  lemma OneMoreRun(rule: (seq<Word>, seq<Word>) -> seq<Word>, p: seq<Word>, q: seq<Word>, runs: seq<Run>, k: nat)
    requires k < |runs| && AllIndexed(runs[..k], p, q) && GoodRun(runs[k]) && Indexed(OpsOf(runs[k]), p, q)
    ensures AllIndexed(runs[..k + 1], p, q)
    ensures Transcript(rule, p, q, runs[..k + 1]) == Transcript(rule, p, q, runs[..k]) + Spoken(rule, p, q, runs[k])
  {
    hide Indexed, Spoken, OpsOf, GoodRun;
    assert runs[..k + 1][..k] == runs[..k];
  }

  lemma SpokenAgreed(rule: (seq<Word>, seq<Word>) -> seq<Word>, p: seq<Word>, q: seq<Word>, run: Run)
    requires run.Agreed? && GoodRun(run) && Indexed(OpsOf(run), p, q)
    ensures run.op.i < |p| && Spoken(rule, p, q, run) == [p[run.op.i]]
  {
    assert OpsOf(run)[0] == run.op;
  }

  lemma SpokenDisputed(rule: (seq<Word>, seq<Word>) -> seq<Word>, p: seq<Word>, q: seq<Word>, run: Run)
    requires run.Disputed? && GoodRun(run) && Indexed(OpsOf(run), p, q)
    ensures forall k :: 0 <= k < |run.ops| ==>
            (!run.ops[k].OnlyQ? ==> run.ops[k].i < |p|) && (!run.ops[k].OnlyP? ==> run.ops[k].j < |q|)
    ensures Spoken(rule, p, q, run) == rule(PWords(p, run.ops), QWords(q, run.ops))
  {
  }

  lemma {:induction false} CostJoin(x: seq<Op>, y: seq<Op>)
    ensures Cost(x + y) == Cost(x) + Cost(y)
  {
    if x == [] {
      assert x + y == y;
    } else {
      assert (x + y)[1..] == x[1..] + y;
      CostJoin(x[1..], y);
    }
  }

  lemma DisputeCosts(ops: seq<Op>)
    ensures ops != [] && !ops[0].Same? ==> Cost(ops) > 0
  {
  }

  lemma NothingSettled(rule: (seq<Word>, seq<Word>) -> seq<Word>, p: seq<Word>, q: seq<Word>)
    ensures Settled(rule, p, q, 0, 0, [])
  {
  }

  lemma FlattenFirst(runs: seq<Run>, k: nat)
    requires k < |runs|
    ensures Flatten(runs[k..]) == OpsOf(runs[k]) + Flatten(runs[k + 1..])
  {
    assert runs[k..][1..] == runs[k + 1..];
  }

  lemma WordsAreThere(ops: seq<Op>, p: seq<Word>, q: seq<Word>)
    requires Indexed(ops, p, q)
    ensures forall k :: 0 <= k < |ops| ==> (!ops[k].OnlyQ? ==> ops[k].i < |p|) && (!ops[k].OnlyP? ==> ops[k].j < |q|)
  {
  }

  /** An agreed word is the next word of both sides. */
  lemma AgreedWord(group: seq<Op>, rest: seq<Op>, p: seq<Word>, q: seq<Word>, i: nat, j: nat)
    requires i <= |p| && j <= |q| && |group| == 1 && group[0].Same? && Aligns(group + rest, p, q, i, j)
    ensures i < |p| && j < |q| && group[0].i == i && p[i] == q[j]
    ensures Indexed(group, p, q) && PWords(p, group) == [p[i]] && QWords(q, group) == [q[j]]
  {
    hide Aligns;
    assert (group + rest)[0] == group[0];
    FirstStep(group + rest, p, q, i, j);
  }

  lemma AllSettled(rule: (seq<Word>, seq<Word>) -> seq<Word>, p: seq<Word>, q: seq<Word>, i: nat, j: nat,
                   groups: seq<Run>, out: seq<Word>)
    requires i <= |p| && j <= |q| && Aligns(Flatten(groups[|groups|..]), p, q, i, j) && Settled(rule, p, q, i, j, out)
    ensures (forall x, y :: rule(x, y) == x) ==> out == p
    ensures (forall x, y :: rule(x, y) == y) ==> out == q
    ensures p == q ==> out == p
  {
    assert groups[|groups|..] == [] && p[..|p|] == p && q[..|q|] == q;
  }

  /** Two equal lists are no distance apart. */
  lemma {:induction false} DiagonalIsFree(p: seq<Word>, i: nat)
    requires i <= |p|
    ensures Distance(p, p, i, i) == 0
  {
    if i > 0 { DiagonalIsFree(p, i - 1); }
  }
}
