/** Task names: what the submission check accepts, and the two indexes from names to positions that the
    scheduler builds from an accepted workflow. Branch definitions are maps, walked in any order. */
module NameIndex {
  import E = Execution
  import opened Options
  import opened Sequences

  datatype Kind = Task | SubWorkflow | FanOut | OtherKind

  datatype FanOutDef = FanOutDef(iteratorKey: string, template: string, maxParallel: int)

  /** Of a branch's tasks only the names matter here. */
  datatype Node = Node(
    name: string,
    kind: Kind,
    subWorkflow: string,
    fanOut: Option<FanOutDef>,
    loop: E.Loop,
    branches: Option<map<string, seq<seq<string>>>>,
    defaultBranch: string)

  type Workflow = seq<seq<Node>>

  // ---------------------------------------------------------------- positions

  datatype Pos = Main(g: nat, n: nat) | InBranch(g: nat, n: nat, branch: string, i: nat, t: nat)

  predicate IsPos(wf: Workflow, p: Pos) {
    p.g < |wf| && p.n < |wf[p.g]| &&
    match p
    case Main(_, _) => true
    case InBranch(g, n, b, i, t) =>
      && wf[g][n].branches.Some? && b in wf[g][n].branches.value
      && i < |wf[g][n].branches.value[b]| && t < |wf[g][n].branches.value[b][i]|
  }

  function NameAt(wf: Workflow, p: Pos): string
    requires IsPos(wf, p)
  {
    match p
    case Main(g, n) => wf[g][n].name
    case InBranch(g, n, b, i, t) => wf[g][n].branches.value[b][i][t]
  }

  /** All positions of the main groups, once each, group by group. */
  ghost predicate ListsMain(wf: Workflow, s: seq<Pos>) {
    && NoRepeat(s) && (forall p :: p in s <==> p.Main? && IsPos(wf, p))
    && (forall i, j :: 0 <= i < j < |s| ==> s[i].g <= s[j].g)
  }

  /** All positions inside branches, once each, in some order. */
  ghost predicate ListsBranches(wf: Workflow, s: seq<Pos>) {
    NoRepeat(s) && forall p :: p in s <==> p.InBranch? && IsPos(wf, p)
  }

  ghost predicate ListsBranchesOf(wf: Workflow, g: nat, n: nat, s: seq<Pos>) {
    NoRepeat(s) && forall p :: p in s <==> p.InBranch? && IsPos(wf, p) && p.g == g && p.n == n
  }

  method MainPositions(wf: Workflow) returns (s: seq<Pos>)
    ensures ListsMain(wf, s)
  {
    s := [];
    for g := 0 to |wf|
      invariant NoRepeat(s) && forall i, j :: 0 <= i < j < |s| ==> s[i].g <= s[j].g
      invariant forall p :: p in s <==> p.Main? && IsPos(wf, p) && p.g < g
    {
      for n := 0 to |wf[g]|
        invariant NoRepeat(s) && forall i, j :: 0 <= i < j < |s| ==> s[i].g <= s[j].g
        invariant forall p :: p in s <==> p.Main? && IsPos(wf, p) && (p.g < g || (p.g == g && p.n < n))
      {
        assert forall i :: 0 <= i < |s| ==> s[i] in s;
        s := s + [Main(g, n)];
      }
    }
  }

  /** The nested loops over one branch's groups. */
  method BranchPositions(wf: Workflow, g: nat, n: nat, b: string) returns (s: seq<Pos>)
    requires g < |wf| && n < |wf[g]| && wf[g][n].branches.Some? && b in wf[g][n].branches.value
    ensures NoRepeat(s) && forall p :: p in s <==> p.InBranch? && IsPos(wf, p) && p.g == g && p.n == n && p.branch == b
  {
    var groups := wf[g][n].branches.value[b];
    s := [];
    for i := 0 to |groups|
      invariant NoRepeat(s)
      invariant forall p :: p in s <==> p.InBranch? && IsPos(wf, p) && p.g == g && p.n == n && p.branch == b && p.i < i
    {
      for t := 0 to |groups[i]|
        invariant NoRepeat(s)
        invariant forall p :: p in s <==> p.InBranch? && IsPos(wf, p) && p.g == g && p.n == n && p.branch == b
                                          && (p.i < i || (p.i == i && p.t < t))
      {
        s := s + [InBranch(g, n, b, i, t)];
      }
    }
  }

  /** The branches of one node, in an arbitrary order. */
  method NodeBranchPositions(wf: Workflow, g: nat, n: nat) returns (s: seq<Pos>)
    requires g < |wf| && n < |wf[g]|
    ensures ListsBranchesOf(wf, g, n, s)
  {
    s := [];
    if wf[g][n].branches.None? {
      return;
    }
    var left := wf[g][n].branches.value.Keys;
    while left != {}
      invariant left <= wf[g][n].branches.value.Keys && NoRepeat(s)
      invariant forall p :: p in s <==> p.InBranch? && IsPos(wf, p) && p.g == g && p.n == n && p.branch !in left
      decreases left
    {
      var b :| b in left;
      left := left - {b};
      var more := BranchPositions(wf, g, n, b);
      JoinNoRepeat(s, more);
      s := s + more;
    }
  }

  method AllBranchPositions(wf: Workflow) returns (s: seq<Pos>)
    ensures ListsBranches(wf, s)
  {
    s := [];
    for g := 0 to |wf|
      invariant NoRepeat(s) && forall p :: p in s <==> p.InBranch? && IsPos(wf, p) && p.g < g
    {
      for n := 0 to |wf[g]|
        invariant NoRepeat(s)
        invariant forall p :: p in s <==> p.InBranch? && IsPos(wf, p) && (p.g < g || (p.g == g && p.n < n))
      {
        var more := NodeBranchPositions(wf, g, n);
        JoinNoRepeat(s, more);
        s := s + more;
      }
    }
  }

  // ---------------------------------------------------------------- the submission check

  predicate LoopOk(loop: E.Loop) {
    loop.LoopDef? ==>
      loop.maxIterations > 0 && loop.condition != E.OtherCondition && (loop.condition == E.Key ==> loop.conditionKey != "")
  }

  /** validateTaskNode accepts the node. */
  predicate NodeOk(n: Node) {
    match n.kind
    case SubWorkflow => n.subWorkflow != "" && LoopOk(n.loop)
    case FanOut =>
      n.fanOut.Some? && n.fanOut.value.iteratorKey != "" && n.fanOut.value.maxParallel >= 0 && n.fanOut.value.template != ""
    case Task => n.name != "" && LoopOk(n.loop)
    case OtherKind => true
  }

  predicate DefaultBranchOk(n: Node) {
    n.defaultBranch != "" && n.branches.Some? ==> n.defaultBranch in n.branches.value
  }

  /** The name validateTaskNode settles on; it is written back to the loop's copy of the node only. */
  function Resolved(n: Node): string {
    if n.kind == SubWorkflow && n.name == "" then "__sub_wf_" + n.subWorkflow else n.name
  }

  function ResolvedAt(wf: Workflow, p: Pos): string
    requires IsPos(wf, p)
  {
    if p.Main? then Resolved(wf[p.g][p.n]) else NameAt(wf, p)
  }

  /** The defects a single node can have: its name, its sub-workflow, its fan-out, its loop and its default
      branch can each be missing or wrong, where its kind looks at them. */
  ghost predicate Defective(n: Node) {
    || (n.kind == Task && n.name == "")
    || (n.kind == SubWorkflow && n.subWorkflow == "")
    || (n.kind == FanOut && n.fanOut.None?)
    || (n.kind == FanOut && (n.fanOut.value.iteratorKey == "" || n.fanOut.value.template == "" || n.fanOut.value.maxParallel < 0))
    || (n.kind in {Task, SubWorkflow} && n.loop.LoopDef?
        && (n.loop.maxIterations <= 0 || n.loop.condition == E.OtherCondition
            || (n.loop.condition == E.Key && n.loop.conditionKey == "")))
    || (n.branches.Some? && n.defaultBranch !in n.branches.value && n.defaultBranch != "")
  }

  /** What submission demands: no defective node, named branch tasks, and no resolved name used twice anywhere. */
  ghost predicate Acceptable(wf: Workflow) {
    && (forall g, n :: 0 <= g < |wf| && 0 <= n < |wf[g]| ==> !Defective(wf[g][n]))
    && (forall p :: IsPos(wf, p) && p.InBranch? ==> NameAt(wf, p) != "")
    && (forall p, q :: IsPos(wf, p) && IsPos(wf, q) && p != q ==> ResolvedAt(wf, p) != ResolvedAt(wf, q))
  }

  ghost predicate AllPos(wf: Workflow, s: seq<Pos>) {
    forall k :: 0 <= k < |s| ==> IsPos(wf, s[k])
  }

  ghost function ResolvedNames(wf: Workflow, s: seq<Pos>): (names: seq<string>)
    requires AllPos(wf, s)
    ensures |names| == |s| && forall k :: 0 <= k < |s| ==> names[k] == ResolvedAt(wf, s[k])
  {
    seq(|s|, k requires 0 <= k < |s| => ResolvedAt(wf, s[k]))
  }

  /** The names claimed so far are those of the positions walked so far, which all differ. */
  ghost predicate Claimed(wf: Workflow, s: seq<Pos>, names: set<string>) {
    && AllPos(wf, s) && NoRepeat(ResolvedNames(wf, s))
    && forall x :: x in names <==> x in ResolvedNames(wf, s)
  }

  /** One name more: either it is new, or the workflow is not acceptable. */
  lemma ClaimOne(wf: Workflow, s: seq<Pos>, names: set<string>, p: Pos)
    requires Claimed(wf, s, names) && IsPos(wf, p) && p !in s
    ensures ResolvedAt(wf, p) in names ==> !Acceptable(wf)
    ensures ResolvedAt(wf, p) !in names ==> Claimed(wf, s + [p], names + {ResolvedAt(wf, p)})
  {
    var x := ResolvedAt(wf, p);
    var before := ResolvedNames(wf, s);
    if x in names {
      var k :| 0 <= k < |s| && before[k] == x;
      assert s[k] in s;
    } else {
      assert ResolvedNames(wf, s + [p]) == before + [x];
      JoinNoRepeat(before, [x]);
    }
  }

  lemma MainsAreThere(wf: Workflow, mains: seq<Pos>)
    requires ListsMain(wf, mains)
    ensures forall k :: 0 <= k < |mains| ==> mains[k].g < |wf| && mains[k].n < |wf[mains[k].g]| && mains[k].Main?
  {
    assert forall k :: 0 <= k < |mains| ==> mains[k] in mains;
  }

  lemma DefectRejects(wf: Workflow, g: nat, n: nat)
    requires g < |wf| && n < |wf[g]| && !(NodeOk(wf[g][n]) && DefaultBranchOk(wf[g][n]))
    ensures !Acceptable(wf)
  {
    assert Defective(wf[g][n]);
  }

  /** The loop over the main nodes. */
  method ClaimMainNames(wf: Workflow, mains: seq<Pos>) returns (ok: bool, allNames: set<string>)
    requires ListsMain(wf, mains)
    ensures ok ==> Claimed(wf, mains, allNames) && forall p :: p in mains ==> NodeOk(wf[p.g][p.n])
    ensures !ok ==> !Acceptable(wf)
  {
    MainsAreThere(wf, mains);
    allNames := {};
    for k := 0 to |mains|
      invariant forall j :: 0 <= j < k ==> NodeOk(wf[mains[j].g][mains[j].n])
      invariant Claimed(wf, mains[..k], allNames)
    {
      assert mains[k] in mains && mains[..k + 1] == mains[..k] + [mains[k]];
      var node := wf[mains[k].g][mains[k].n];
      ClaimOne(wf, mains[..k], allNames, mains[k]);
      if !NodeOk(node) {
        DefectRejects(wf, mains[k].g, mains[k].n);
        return false, allNames;
      }
      if Resolved(node) in allNames {
        return false, allNames;
      }
      allNames := allNames + {Resolved(node)};
    }
    assert mains[..|mains|] == mains;
    return true, allNames;
  }

  /** The loop over the tasks of all branches. */
  method ClaimBranchNames(wf: Workflow, mains: seq<Pos>, inBranches: seq<Pos>, claimed: set<string>)
    returns (ok: bool, allNames: set<string>)
    requires ListsMain(wf, mains) && ListsBranches(wf, inBranches) && Claimed(wf, mains, claimed)
    ensures ok ==> Claimed(wf, mains + inBranches, allNames)
                   && forall p :: p in inBranches ==> IsPos(wf, p) && NameAt(wf, p) != ""
    ensures !ok ==> !Acceptable(wf)
  {
    allNames := claimed;
    assert mains == mains + inBranches[..0];
    for k := 0 to |inBranches|
      invariant forall j :: 0 <= j < k ==> IsPos(wf, inBranches[j]) && NameAt(wf, inBranches[j]) != ""
      invariant Claimed(wf, mains + inBranches[..k], allNames)
    {
      assert inBranches[k] in inBranches;
      assert mains + inBranches[..k + 1] == (mains + inBranches[..k]) + [inBranches[k]];
      var name := NameAt(wf, inBranches[k]);
      ClaimOne(wf, mains + inBranches[..k], allNames, inBranches[k]);
      if name == "" || name in allNames {
        return false, allNames;
      }
      allNames := allNames + {name};
    }
    assert inBranches[..|inBranches|] == inBranches;
    return true, allNames;
  }

  /** The task part of validateWorkflowTasks. */
  method ValidateWorkflowTasks(wf: Workflow) returns (accepted: bool)
    ensures accepted <==> Acceptable(wf)
  {
    var mains := MainPositions(wf);
    MainsAreThere(wf, mains);
    for k := 0 to |mains|
      invariant forall j :: 0 <= j < k ==> DefaultBranchOk(wf[mains[j].g][mains[j].n])
    {
      if !DefaultBranchOk(wf[mains[k].g][mains[k].n]) {
        DefectRejects(wf, mains[k].g, mains[k].n);
        return false;
      }
    }
    var ok, allNames := ClaimMainNames(wf, mains);
    if !ok {
      return false;
    }
    var inBranches := AllBranchPositions(wf);
    ok, allNames := ClaimBranchNames(wf, mains, inBranches, allNames);
    if ok {
      ClaimedIsAcceptable(wf, mains, inBranches, allNames);
    }
    return ok;
  }

  lemma ClaimedIsAcceptable(wf: Workflow, mains: seq<Pos>, inBranches: seq<Pos>, names: set<string>)
    requires ListsMain(wf, mains) && ListsBranches(wf, inBranches) && Claimed(wf, mains + inBranches, names)
    requires forall p :: p in mains ==> NodeOk(wf[p.g][p.n]) && DefaultBranchOk(wf[p.g][p.n])
    requires forall p :: p in inBranches ==> IsPos(wf, p) && NameAt(wf, p) != ""
    ensures Acceptable(wf)
  {
    var s := mains + inBranches;
    forall p, q | IsPos(wf, p) && IsPos(wf, q) && p != q ensures ResolvedAt(wf, p) != ResolvedAt(wf, q) {
      assert p in s && q in s;
      var j :| 0 <= j < |s| && s[j] == p;
      var k :| 0 <= k < |s| && s[k] == q;
      var names := ResolvedNames(wf, s);
      assert names[j] == ResolvedAt(wf, p) && names[k] == ResolvedAt(wf, q);
    }
    forall g, n | 0 <= g < |wf| && 0 <= n < |wf[g]| ensures NodeOk(wf[g][n]) && DefaultBranchOk(wf[g][n]) {
      assert Main(g, n) in mains;
    }
  }

  /** A sub-workflow node without a name claims a name of its own, which no task may bear. */
  lemma NamelessNodeClaimsName(sub: string)
    ensures var nameless := Node("", SubWorkflow, sub, None, E.NoLoop, None, "");
            var task := (name: string) => Node(name, Task, "", None, E.NoLoop, None, "");
            && !Acceptable([[nameless], [task("__sub_wf_" + sub)]])
            && (sub != "" ==> Acceptable([[nameless], [task(sub)]]))
  {
    var nameless := Node("", SubWorkflow, sub, None, E.NoLoop, None, "");
    var task := (name: string) => Node(name, Task, "", None, E.NoLoop, None, "");
    var bad, good := [[nameless], [task("__sub_wf_" + sub)]], [[nameless], [task(sub)]];
    assert IsPos(bad, Main(0, 0)) && IsPos(bad, Main(1, 0)) && ResolvedAt(bad, Main(0, 0)) == ResolvedAt(bad, Main(1, 0));
    forall p | IsPos(good, p) ensures p == Main(0, 0) || p == Main(1, 0) {
    }
    assert |"__sub_wf_" + sub| > |sub|;
  }

  // ---------------------------------------------------------------- distinct names

  ghost predicate DistinctNames(wf: Workflow) {
    forall p, q :: IsPos(wf, p) && IsPos(wf, q) && p != q ==> NameAt(wf, p) != NameAt(wf, q)
  }

  ghost predicate Nameless(wf: Workflow, p: Pos) {
    IsPos(wf, p) && p.Main? && wf[p.g][p.n].name == ""
  }

  /** In an accepted workflow all names, of main and branch tasks, are pairwise distinct exactly when at
      most one main node has been left without a name. */
  lemma AcceptedNamesDistinctIff(wf: Workflow)
    requires Acceptable(wf)
    ensures DistinctNames(wf) <==> forall p, q :: Nameless(wf, p) && Nameless(wf, q) ==> p == q
  {
    if DistinctNames(wf) {
      forall p, q | Nameless(wf, p) && Nameless(wf, q) ensures p == q {
        assert NameAt(wf, p) == NameAt(wf, q);
      }
    } else {
      var p, q :| IsPos(wf, p) && IsPos(wf, q) && p != q && NameAt(wf, p) == NameAt(wf, q);
      assert ResolvedAt(wf, p) != ResolvedAt(wf, q);
      assert Nameless(wf, p) && Nameless(wf, q);
    }
  }

  /** Two sub-workflow nodes without a name are accepted, and share the empty name at run time. */
  lemma TwoNamelessNodes(a: string, b: string)
    requires a != b && a != "" && b != ""
    ensures var node := (sub: string) => Node("", SubWorkflow, sub, None, E.NoLoop, None, "");
            Acceptable([[node(a)], [node(b)]]) && !DistinctNames([[node(a)], [node(b)]])
  {
    var node := (sub: string) => Node("", SubWorkflow, sub, None, E.NoLoop, None, "");
    var wf := [[node(a)], [node(b)]];
    forall p | IsPos(wf, p) ensures p == Main(0, 0) || p == Main(1, 0) {
    }
    assert ("__sub_wf_" + a)[|"__sub_wf_"|..] == a && ("__sub_wf_" + b)[|"__sub_wf_"|..] == b;
    assert IsPos(wf, Main(0, 0)) && IsPos(wf, Main(1, 0)) && NameAt(wf, Main(0, 0)) == NameAt(wf, Main(1, 0));
  }

  // ---------------------------------------------------------------- the indexes

  datatype Location = Location(parentGroupIdx: nat, parentNodeName: string, branchName: string)

  function LocationOf(wf: Workflow, p: Pos): Location
    requires IsPos(wf, p) && p.InBranch?
  {
    Location(p.g, wf[p.g][p.n].name, p.branch)
  }

  /** Each main name leads to the last main group that uses it, and nothing else is indexed. */
  ghost predicate IsGroupIndex(wf: Workflow, idx: map<string, nat>) {
    && (forall p :: IsPos(wf, p) && p.Main? ==> NameAt(wf, p) in idx && p.g <= idx[NameAt(wf, p)])
    && (forall x :: x in idx ==> exists p :: IsPos(wf, p) && p.Main? && NameAt(wf, p) == x && idx[x] == p.g)
  }

  /** Each branch task's name leads to the place of a branch task with that name. */
  ghost predicate IsBranchIndex(wf: Workflow, idx: map<string, Location>) {
    && (forall p :: IsPos(wf, p) && p.InBranch? ==> NameAt(wf, p) in idx)
    && (forall x :: x in idx ==> exists p :: IsPos(wf, p) && p.InBranch? && NameAt(wf, p) == x && idx[x] == LocationOf(wf, p))
  }

  ghost predicate GroupIndexed(wf: Workflow, s: seq<Pos>, x: string, g: nat) {
    AllPos(wf, s) && exists j :: 0 <= j < |s| && NameAt(wf, s[j]) == x && s[j].g == g
  }

  /** The index over the positions walked so far. */
  ghost predicate GroupIndexOf(wf: Workflow, s: seq<Pos>, idx: map<string, nat>) {
    && AllPos(wf, s)
    && (forall j :: 0 <= j < |s| ==> NameAt(wf, s[j]) in idx && s[j].g <= idx[NameAt(wf, s[j])])
    && (forall x :: x in idx ==> GroupIndexed(wf, s, x, idx[x]))
  }

  lemma IndexOne(wf: Workflow, s: seq<Pos>, idx: map<string, nat>, p: Pos)
    requires GroupIndexOf(wf, s, idx) && IsPos(wf, p) && forall j :: 0 <= j < |s| ==> s[j].g <= p.g
    ensures GroupIndexOf(wf, s + [p], idx[NameAt(wf, p) := p.g])
  {
    var s', idx' := s + [p], idx[NameAt(wf, p) := p.g];
    forall x | x in idx' ensures GroupIndexed(wf, s', x, idx'[x]) {
      if x == NameAt(wf, p) {
        assert s'[|s|] == p;
      } else {
        var j :| 0 <= j < |s| && NameAt(wf, s[j]) == x && s[j].g == idx[x];
        assert s'[j] == s[j];
      }
    }
  }

  method BuildTaskGroupIndex(wf: Workflow) returns (idx: map<string, nat>)
    ensures IsGroupIndex(wf, idx)
  {
    idx := map[];
    var s := MainPositions(wf);
    assert forall k :: 0 <= k < |s| ==> s[k] in s;
    for k := 0 to |s|
      invariant GroupIndexOf(wf, s[..k], idx)
    {
      IndexOne(wf, s[..k], idx, s[k]);
      assert s[..k + 1] == s[..k] + [s[k]];
      idx := idx[NameAt(wf, s[k]) := s[k].g];
    }
    assert s[..|s|] == s;
    WholeGroupIndex(wf, s, idx);
  }

  lemma WholeGroupIndex(wf: Workflow, s: seq<Pos>, idx: map<string, nat>)
    requires ListsMain(wf, s) && GroupIndexOf(wf, s, idx)
    ensures IsGroupIndex(wf, idx)
  {
    forall x | x in idx ensures exists p :: IsPos(wf, p) && p.Main? && NameAt(wf, p) == x && idx[x] == p.g {
      assert GroupIndexed(wf, s, x, idx[x]);
      var j :| 0 <= j < |s| && NameAt(wf, s[j]) == x && s[j].g == idx[x];
      assert s[j] in s;
    }
  }

  ghost predicate BranchIndexed(wf: Workflow, s: seq<Pos>, x: string, l: Location) {
    AllPos(wf, s) && exists j :: 0 <= j < |s| && s[j].InBranch? && NameAt(wf, s[j]) == x && LocationOf(wf, s[j]) == l
  }

  ghost predicate BranchIndexOf(wf: Workflow, s: seq<Pos>, idx: map<string, Location>) {
    && AllPos(wf, s)
    && (forall j :: 0 <= j < |s| ==> NameAt(wf, s[j]) in idx)
    && (forall x :: x in idx ==> BranchIndexed(wf, s, x, idx[x]))
  }

  lemma IndexOneBranch(wf: Workflow, s: seq<Pos>, idx: map<string, Location>, p: Pos)
    requires BranchIndexOf(wf, s, idx) && IsPos(wf, p) && p.InBranch?
    ensures BranchIndexOf(wf, s + [p], idx[NameAt(wf, p) := LocationOf(wf, p)])
  {
    var s', idx' := s + [p], idx[NameAt(wf, p) := LocationOf(wf, p)];
    forall x | x in idx' ensures BranchIndexed(wf, s', x, idx'[x]) {
      if x == NameAt(wf, p) {
        assert s'[|s|] == p;
      } else {
        var j :| 0 <= j < |s| && s[j].InBranch? && NameAt(wf, s[j]) == x && LocationOf(wf, s[j]) == idx[x];
        assert s'[j] == s[j];
      }
    }
  }

  method BuildBranchTaskIndex(wf: Workflow) returns (idx: map<string, Location>)
    ensures IsBranchIndex(wf, idx)
  {
    idx := map[];
    var s := AllBranchPositions(wf);
    assert forall j :: 0 <= j < |s| ==> s[j] in s;
    for k := 0 to |s|
      invariant BranchIndexOf(wf, s[..k], idx)
    {
      IndexOneBranch(wf, s[..k], idx, s[k]);
      assert s[..k + 1] == s[..k] + [s[k]];
      idx := idx[NameAt(wf, s[k]) := LocationOf(wf, s[k])];
    }
    assert s[..|s|] == s;
    WholeBranchIndex(wf, s, idx);
  }

  lemma WholeBranchIndex(wf: Workflow, s: seq<Pos>, idx: map<string, Location>)
    requires ListsBranches(wf, s) && BranchIndexOf(wf, s, idx)
    ensures IsBranchIndex(wf, idx)
  {
    forall x | x in idx
      ensures exists p :: IsPos(wf, p) && p.InBranch? && NameAt(wf, p) == x && idx[x] == LocationOf(wf, p)
    {
      assert BranchIndexed(wf, s, x, idx[x]);
      var j :| 0 <= j < |s| && s[j].InBranch? && NameAt(wf, s[j]) == x && LocationOf(wf, s[j]) == idx[x];
    }
  }

  /** For distinct names the indexes are exact inverses of the positions, and share no key. */
  lemma IndexesInvertPositions(wf: Workflow, groups: map<string, nat>, inBranches: map<string, Location>)
    requires DistinctNames(wf) && IsGroupIndex(wf, groups) && IsBranchIndex(wf, inBranches)
    ensures forall p :: IsPos(wf, p) && p.Main? ==> NameAt(wf, p) in groups && groups[NameAt(wf, p)] == p.g
    ensures forall p :: IsPos(wf, p) && p.InBranch? ==>
              NameAt(wf, p) in inBranches && inBranches[NameAt(wf, p)] == Location(p.g, wf[p.g][p.n].name, p.branch)
    ensures groups.Keys !! inBranches.Keys
  {
    forall p | IsPos(wf, p) && p.Main? ensures groups[NameAt(wf, p)] == p.g {
      var x := NameAt(wf, p);
      var q :| IsPos(wf, q) && q.Main? && NameAt(wf, q) == x && groups[x] == q.g;
    }
    forall p | IsPos(wf, p) && p.InBranch? ensures inBranches[NameAt(wf, p)] == LocationOf(wf, p) {
      var x := NameAt(wf, p);
      var q :| IsPos(wf, q) && q.InBranch? && NameAt(wf, q) == x && inBranches[x] == LocationOf(wf, q);
    }
    forall x | x in groups ensures x !in inBranches {
      var p :| IsPos(wf, p) && p.Main? && NameAt(wf, p) == x && groups[x] == p.g;
      assert forall q :: IsPos(wf, q) && q.InBranch? ==> NameAt(wf, q) != NameAt(wf, p);
    }
  }

  /** For distinct names the order in which branch maps are walked makes no difference. */
  lemma IndexesAreDetermined(wf: Workflow, a: map<string, Location>, b: map<string, Location>)
    requires DistinctNames(wf) && IsBranchIndex(wf, a) && IsBranchIndex(wf, b)
    ensures a == b
  {
    forall x | x in a ensures x in b && a[x] == b[x] {
      SameLocation(wf, a, b, x);
    }
    forall x | x in b ensures x in a {
      SameLocation(wf, b, a, x);
    }
  }

  lemma SameLocation(wf: Workflow, a: map<string, Location>, b: map<string, Location>, x: string)
    requires DistinctNames(wf) && IsBranchIndex(wf, a) && IsBranchIndex(wf, b) && x in a
    ensures x in b && a[x] == b[x]
  {
    var p :| IsPos(wf, p) && p.InBranch? && NameAt(wf, p) == x && a[x] == LocationOf(wf, p);
    var q :| IsPos(wf, q) && q.InBranch? && NameAt(wf, q) == x && b[x] == LocationOf(wf, q);
  }

  // ---------------------------------------------------------------- listing all names

  function NamesOf(wf: Workflow, s: seq<Pos>): (names: seq<string>)
    requires forall k :: 0 <= k < |s| ==> IsPos(wf, s[k])
    ensures |names| == |s| && forall k :: 0 <= k < |s| ==> names[k] == NameAt(wf, s[k])
  {
    seq(|s|, k requires 0 <= k < |s| => NameAt(wf, s[k]))
  }

  /** The fan-out template of a node, when it contributes a name. */
  function Template(n: Node): seq<string> {
    if n.kind == FanOut && n.fanOut.Some? && n.fanOut.value.template != "" then [n.fanOut.value.template] else []
  }

  function GroupTemplates(group: seq<Node>): seq<string> {
    if group == [] then [] else GroupTemplates(group[..|group| - 1]) + Template(group[|group| - 1])
  }

  function Templates(wf: Workflow): seq<string> {
    if wf == [] then [] else Templates(wf[..|wf| - 1]) + GroupTemplates(wf[|wf| - 1])
  }

  /** The node is a fan-out with this template. */
  ghost predicate FansOut(n: Node, x: string) {
    x != "" && n.kind == FanOut && n.fanOut.Some? && n.fanOut.value.template == x
  }

  lemma {:induction false} GroupTemplateIff(group: seq<Node>, x: string)
    ensures x in GroupTemplates(group) <==> exists n :: 0 <= n < |group| && FansOut(group[n], x)
  {
    if group != [] {
      GroupTemplateIff(group[..|group| - 1], x);
    }
  }

  ghost predicate GroupFansOut(group: seq<Node>, x: string) {
    exists n :: 0 <= n < |group| && FansOut(group[n], x)
  }

  /** A template is listed if and only if a fan-out node of a main group has it. */
  lemma {:induction false} TemplateIff(wf: Workflow, x: string)
    ensures x in Templates(wf) <==> exists g :: 0 <= g < |wf| && GroupFansOut(wf[g], x)
  {
    if wf != [] {
      TemplateIff(wf[..|wf| - 1], x);
      GroupTemplateIff(wf[|wf| - 1], x);
    }
  }

  /** Sub-workflow and fan-out nodes without a name are passed over. */
  predicate Listed(wf: Workflow, p: Pos) {
    IsPos(wf, p) && (p.Main? && (wf[p.g][p.n].kind.SubWorkflow? || wf[p.g][p.n].kind.FanOut?) ==> NameAt(wf, p) != "")
  }

  /** The tasks listed are all branch tasks and all main nodes but the nameless ones of the two kinds. */
  lemma ListedIff(wf: Workflow, p: Pos)
    ensures Listed(wf, p) <==> IsPos(wf, p) && !(Nameless(wf, p) && wf[p.g][p.n].kind in {SubWorkflow, FanOut})
  {
  }

  ghost predicate ListsUpTo(wf: Workflow, g: nat, s: seq<Pos>) {
    NoRepeat(s) && forall p :: p in s <==> Listed(wf, p) && p.g < g
  }

  /** The names are those of the given tasks and templates, with multiplicities. */
  ghost predicate Accounts(wf: Workflow, names: seq<string>, tasks: seq<Pos>, templates: seq<string>) {
    AllPos(wf, tasks) && multiset(names) == multiset(NamesOf(wf, tasks)) + multiset(templates)
  }

  lemma JoinAccounts(wf: Workflow, names: seq<string>, tasks: seq<Pos>, templates: seq<string>,
                     names': seq<string>, tasks': seq<Pos>, templates': seq<string>)
    requires Accounts(wf, names, tasks, templates) && Accounts(wf, names', tasks', templates')
    ensures Accounts(wf, names + names', tasks + tasks', templates + templates')
  {
    var a, b := NamesOf(wf, tasks), NamesOf(wf, tasks');
    assert NamesOf(wf, tasks + tasks') == a + b;
    assert multiset(a + b) == multiset(a) + multiset(b);
  }

  /** What AllTaskNames appends for a node itself: its name unless passed over, and its template. */
  method OwnNames(wf: Workflow, g: nat, n: nat) returns (names: seq<string>, ghost tasks: seq<Pos>)
    requires g < |wf| && n < |wf[g]|
    ensures Accounts(wf, names, tasks, Template(wf[g][n]))
    ensures tasks == if Listed(wf, Main(g, n)) then [Main(g, n)] else []
  {
    var node := wf[g][n];
    names := [];
    if node.kind == SubWorkflow {
      if node.name != "" {
        names := [node.name];
      }
    } else if node.kind == FanOut {
      if node.name != "" {
        names := [node.name];
      }
      if node.fanOut.Some? && node.fanOut.value.template != "" {
        names := names + [node.fanOut.value.template];
      }
    } else {
      names := [node.name];
    }
    tasks := if Listed(wf, Main(g, n)) then [Main(g, n)] else [];
    assert NamesOf(wf, tasks) == if tasks == [] then [] else [node.name];
    assert names == NamesOf(wf, tasks) + Template(node);
  }

  /** The same with the node's branch tasks. */
  method NodeNames(wf: Workflow, g: nat, n: nat) returns (names: seq<string>, ghost tasks: seq<Pos>)
    requires g < |wf| && n < |wf[g]|
    ensures NoRepeat(tasks) && forall p :: p in tasks <==> Listed(wf, p) && p.g == g && p.n == n
    ensures Accounts(wf, names, tasks, Template(wf[g][n]))
  {
    var own, ownTasks := OwnNames(wf, g, n);
    var inBranches := NodeBranchPositions(wf, g, n);
    BranchesAreThere(wf, g, n, inBranches);
    names := own + NamesOf(wf, inBranches);
    tasks := ownTasks + inBranches;
    ListsNode(wf, g, n, ownTasks, inBranches);
    JoinAccounts(wf, own, ownTasks, Template(wf[g][n]), NamesOf(wf, inBranches), inBranches, []);
    assert Template(wf[g][n]) + [] == Template(wf[g][n]);
  }

  lemma ListsNode(wf: Workflow, g: nat, n: nat, ownTasks: seq<Pos>, inBranches: seq<Pos>)
    requires g < |wf| && n < |wf[g]| && ListsBranchesOf(wf, g, n, inBranches)
    requires ownTasks == if Listed(wf, Main(g, n)) then [Main(g, n)] else []
    ensures NoRepeat(ownTasks + inBranches)
    ensures forall p :: p in ownTasks + inBranches <==> Listed(wf, p) && p.g == g && p.n == n
  {
    JoinNoRepeat(ownTasks, inBranches);
    forall p ensures p in ownTasks <==> p == Main(g, n) && Listed(wf, p) {
    }
  }

  lemma BranchesAreThere(wf: Workflow, g: nat, n: nat, s: seq<Pos>)
    requires ListsBranchesOf(wf, g, n, s)
    ensures AllPos(wf, s) && Accounts(wf, NamesOf(wf, s), s, [])
  {
    assert forall k :: 0 <= k < |s| ==> s[k] in s;
  }

  /** The listed tasks of the group's first n nodes, once each. */
  ghost predicate ListsInGroup(wf: Workflow, g: nat, n: nat, s: seq<Pos>) {
    NoRepeat(s) && forall p :: p in s <==> Listed(wf, p) && p.g == g && p.n < n
  }

  lemma ListsNextNode(wf: Workflow, g: nat, n: nat, s: seq<Pos>, more: seq<Pos>)
    requires ListsInGroup(wf, g, n, s)
    requires NoRepeat(more) && forall p :: p in more <==> Listed(wf, p) && p.g == g && p.n == n
    ensures ListsInGroup(wf, g, n + 1, s + more)
  {
    JoinNoRepeat(s, more);
  }

  /** The inner loop of AllTaskNames. */
  method GroupNames(wf: Workflow, g: nat) returns (names: seq<string>, ghost tasks: seq<Pos>)
    requires g < |wf|
    ensures NoRepeat(tasks) && forall p :: p in tasks <==> Listed(wf, p) && p.g == g
    ensures Accounts(wf, names, tasks, GroupTemplates(wf[g]))
  {
    names, tasks := [], [];
    var group := wf[g];
    for n := 0 to |group|
      invariant ListsInGroup(wf, g, n, tasks)
      invariant Accounts(wf, names, tasks, GroupTemplates(group[..n]))
    {
      var own, ownTasks := NodeNames(wf, g, n);
      ListsNextNode(wf, g, n, tasks, ownTasks);
      JoinAccounts(wf, names, tasks, GroupTemplates(group[..n]), own, ownTasks, Template(group[n]));
      assert group[..n + 1][..n] == group[..n];
      names := names + own;
      tasks := tasks + ownTasks;
    }
    assert group[..|group|] == group;
  }

  /** All tasks of the workflow by name; tasks lists their positions. */
  method AllTaskNames(wf: Workflow) returns (names: seq<string>, ghost tasks: seq<Pos>)
    ensures ListsUpTo(wf, |wf|, tasks)
    ensures Accounts(wf, names, tasks, Templates(wf))
  {
    names, tasks := [], [];
    for g := 0 to |wf|
      invariant ListsUpTo(wf, g, tasks)
      invariant Accounts(wf, names, tasks, Templates(wf[..g]))
    {
      var own, ownTasks := GroupNames(wf, g);
      JoinNoRepeat(tasks, ownTasks);
      JoinAccounts(wf, names, tasks, Templates(wf[..g]), own, ownTasks, GroupTemplates(wf[g]));
      assert wf[..g + 1][..g] == wf[..g];
      names := names + own;
      tasks := tasks + ownTasks;
    }
    assert wf[..|wf|] == wf;
  }

  /** The keys of both indexes, each map walked in any order. */
  method AllTaskNamesCached(groups: map<string, nat>, inBranches: map<string, Location>) returns (names: seq<string>)
    ensures forall x :: x in names <==> x in groups || x in inBranches
    ensures groups.Keys !! inBranches.Keys ==> NoRepeat(names)
  {
    names := [];
    var left := groups.Keys;
    while left != {}
      invariant left <= groups.Keys && NoRepeat(names)
      invariant forall x :: x in names <==> x in groups && x !in left
      decreases left
    {
      var x :| x in left;
      left := left - {x};
      names := names + [x];
    }
    left := inBranches.Keys;
    while left != {}
      invariant left <= inBranches.Keys
      invariant forall x :: x in names <==> x in groups || (x in inBranches && x !in left)
      invariant groups.Keys !! inBranches.Keys ==> NoRepeat(names)
      decreases left
    {
      var x :| x in left;
      left := left - {x};
      names := names + [x];
    }
  }

  lemma {:induction false} NoRepeatCounts(s: seq<string>, x: string)
    requires NoRepeat(s)
    ensures multiset(s)[x] == if x in s then 1 else 0
  {
    if s != [] {
      assert s == s[..|s| - 1] + [s[|s| - 1]];
      NoRepeatCounts(s[..|s| - 1], x);
    }
  }

  /** In an accepted workflow without nameless nodes, the names read off the indexes are those of the full
      walk without the fan-out templates, with the same multiplicities. */
  lemma CachedNamesAreAllNames(wf: Workflow, groups: map<string, nat>, inBranches: map<string, Location>,
                               cached: seq<string>, names: seq<string>, tasks: seq<Pos>)
    requires Acceptable(wf) && forall p :: !Nameless(wf, p)
    requires IsGroupIndex(wf, groups) && IsBranchIndex(wf, inBranches)
    requires forall x :: x in cached <==> x in groups || x in inBranches
    requires groups.Keys !! inBranches.Keys ==> NoRepeat(cached)
    requires ListsUpTo(wf, |wf|, tasks) && Accounts(wf, names, tasks, Templates(wf))
    ensures multiset(names) == multiset(cached) + multiset(Templates(wf))
  {
    AcceptedNamesDistinctIff(wf);
    IndexesInvertPositions(wf, groups, inBranches);
    var walked := NamesOf(wf, tasks);
    DistinctNoRepeat(wf, tasks);
    forall x ensures multiset(walked)[x] == multiset(cached)[x] {
      CachedIffWalked(wf, groups, inBranches, tasks, x);
      NoRepeatCounts(walked, x);
      NoRepeatCounts(cached, x);
    }
  }

  lemma DistinctNoRepeat(wf: Workflow, s: seq<Pos>)
    requires DistinctNames(wf) && AllPos(wf, s) && NoRepeat(s)
    ensures NoRepeat(NamesOf(wf, s))
  {
  }

  lemma CachedIffWalked(wf: Workflow, groups: map<string, nat>, inBranches: map<string, Location>, tasks: seq<Pos>, x: string)
    requires IsGroupIndex(wf, groups) && IsBranchIndex(wf, inBranches) && forall p :: !Nameless(wf, p)
    requires ListsUpTo(wf, |wf|, tasks) && AllPos(wf, tasks)
    ensures x in NamesOf(wf, tasks) <==> x in groups || x in inBranches
  {
    if x in groups || x in inBranches {
      CachedIsWalked(wf, groups, inBranches, tasks, x);
    }
    if x in NamesOf(wf, tasks) {
      var k :| 0 <= k < |tasks| && NamesOf(wf, tasks)[k] == x;
      assert IsPos(wf, tasks[k]);
    }
  }

  lemma CachedIsWalked(wf: Workflow, groups: map<string, nat>, inBranches: map<string, Location>, tasks: seq<Pos>, x: string)
    requires IsGroupIndex(wf, groups) && IsBranchIndex(wf, inBranches) && forall p :: !Nameless(wf, p)
    requires ListsUpTo(wf, |wf|, tasks) && forall k :: 0 <= k < |tasks| ==> IsPos(wf, tasks[k])
    requires x in groups || x in inBranches
    ensures x in NamesOf(wf, tasks)
  {
    var p;
    if x in groups {
      p :| IsPos(wf, p) && p.Main? && NameAt(wf, p) == x && groups[x] == p.g;
      assert !Nameless(wf, p);
    } else {
      p :| IsPos(wf, p) && p.InBranch? && NameAt(wf, p) == x && inBranches[x] == LocationOf(wf, p);
    }
    assert Listed(wf, p);
    var k :| 0 <= k < |tasks| && tasks[k] == p;
    assert NamesOf(wf, tasks)[k] == x;
  }
}
