/**
 * The audit's multi-root walk over document injections:
 * src/audit/checks/injection-targets.ts and src/audit/injection-scan.ts.
 */
module InjectionWalk {
  import opened Wrappers

  type Path = string

  datatype Kind = Doc | SystemDoc | Shared | SystemShared

  datatype Ref = Ref(kind: Kind, target: string)

  /** A workspace: the injections of every readable file, what exists, and how targets resolve. */
  datatype Workspace = Workspace(
    files: map<Path, seq<Ref>>,
    existing: set<Path>,
    agentPath: string -> Path,
    sharedPath: Option<string -> Path>)

  datatype Rule = AtWorkspaceRoot | Unresolved

  /** A finding names the reference it is about: the `index`-th injection of `file`. */
  datatype Finding = Finding(rule: Rule, file: Path, index: nat)

  /** `resolveInjection`: None when the target does not exist or there is no shared directory. */
  function Resolve(ws: Workspace, ref: Ref): Option<Path> {
    var base := if ref.kind.Shared? || ref.kind.SystemShared? then ws.sharedPath else Some(ws.agentPath);
    if base.None? then None
    else
      var path := base.value(ref.target);
      if path in ws.existing then Some(path) else None
  }

  predicate BareFilename(ref: Ref) {
    (ref.kind.Doc? || ref.kind.SystemDoc?) && '/' !in ref.target
  }

  /** The existing file a reference is about: under the shared directory for the shared kinds, else the agent's. */
  ghost predicate Points(ws: Workspace, ref: Ref, q: Path) {
    && q in ws.existing
    && (ref.kind == Doc || ref.kind == SystemDoc ==> q == ws.agentPath(ref.target))
    && (ref.kind == Shared || ref.kind == SystemShared ==>
          ws.sharedPath.Some? && q == ws.sharedPath.value(ref.target))
  }

  ghost predicate Missing(ws: Workspace, ref: Ref) { forall q :: !Points(ws, ref, q) }

  /** A reference into the agent's directory without a directory part. */
  ghost predicate NamesRootFile(ref: Ref) {
    ref.kind != Shared && ref.kind != SystemShared && forall k :: 0 <= k < |ref.target| ==> ref.target[k] != '/'
  }

  /** A reference resolves to the file it is about, and to nothing exactly when there is none. */
  lemma ResolveIs(ws: Workspace, ref: Ref)
    ensures forall q :: Resolve(ws, ref) == Some(q) <==> Points(ws, ref, q)
    ensures Resolve(ws, ref).None? <==> Missing(ws, ref)
    ensures BareFilename(ref) <==> NamesRootFile(ref)
  {
    if Resolve(ws, ref).Some? { assert Points(ws, ref, Resolve(ws, ref).value); }
    assert '/' in ref.target <==> exists k :: 0 <= k < |ref.target| && ref.target[k] == '/';
  }

  /** What the audit ought to report about a file, reference by reference. */
  ghost predicate Reportable(ws: Workspace, f: Finding) {
    && f.file in ws.files && f.index < |ws.files[f.file]|
    && var ref := ws.files[f.file][f.index];
       match f.rule
       case AtWorkspaceRoot => NamesRootFile(ref)
       case Unresolved => Missing(ws, ref)
  }

  ghost predicate Edge(ws: Workspace, p: Path, q: Path) {
    p in ws.files && exists ref :: ref in ws.files[p] && Points(ws, ref, q)
  }

  ghost predicate IsPath(ws: Workspace, path: seq<Path>) {
    path != [] && forall i :: 0 <= i < |path| - 1 ==> Edge(ws, path[i], path[i + 1])
  }

  ghost predicate Reaches(ws: Workspace, p: Path, q: Path) {
    exists path :: IsPath(ws, path) && path[0] == p && path[|path| - 1] == q
  }

  lemma ReachesSelf(ws: Workspace, p: Path)
    ensures Reaches(ws, p, p)
  {
    assert IsPath(ws, [p]);
  }

  lemma ReachesStep(ws: Workspace, p: Path, q: Path, r: Path)
    requires Edge(ws, p, q) && Reaches(ws, q, r)
    ensures Reaches(ws, p, r)
  {
    var path :| IsPath(ws, path) && path[0] == q && path[|path| - 1] == r;
    var longer := [p] + path;
    forall i | 0 <= i < |longer| - 1 ensures Edge(ws, longer[i], longer[i + 1]) {
      if i > 0 { assert Edge(ws, path[i - 1], path[i - 1 + 1]); }
    }
    assert IsPath(ws, longer);
  }

  ghost predicate Closed(ws: Workspace, visited: set<Path>) {
    forall p, q :: p in visited && Edge(ws, p, q) ==> q in visited
  }

  lemma {:induction false} ClosedContainsReach(ws: Workspace, visited: set<Path>, path: seq<Path>)
    requires Closed(ws, visited) && IsPath(ws, path) && path[0] in visited
    ensures path[|path| - 1] in visited
    decreases |path|
  {
    if |path| > 1 {
      assert Edge(ws, path[0], path[0 + 1]);
      forall i | 0 <= i < |path[1..]| - 1 ensures Edge(ws, path[1..][i], path[1..][i + 1]) {
        assert Edge(ws, path[i + 1], path[i + 1 + 1]);
      }
      ClosedContainsReach(ws, visited, path[1..]);
    }
  }

  ghost predicate NoDup<T>(s: seq<T>) {
    forall i, j :: 0 <= i < j < |s| ==> s[i] != s[j]
  }

  /**
   * What has been reported so far: every reportable finding of a visited file, except that a
   * file still being walked, in `gray`, is done only up to the stated reference.
   */
  ghost predicate Reports(ws: Workspace, findings: seq<Finding>, visited: set<Path>, gray: map<Path, nat>) {
    && NoDup(findings)
    && gray.Keys <= visited
    && forall f :: f in findings <==>
         Reportable(ws, f) && f.file in visited && (f.file in gray ==> f.index < gray[f.file])
  }

  /** What the loop body pushes for one reference before any recursion. */
  ghost function OwnFindings(ws: Workspace, p: Path, i: nat): (r: seq<Finding>)
    requires p in ws.files && i < |ws.files[p]|
    ensures NoDup(r)
    ensures forall f :: f in r <==> f.file == p && f.index == i && Reportable(ws, f)
  {
    var ref := ws.files[p][i];
    ResolveIs(ws, ref);
    (if BareFilename(ref) then [Finding(AtWorkspaceRoot, p, i)] else [])
    + (if Resolve(ws, ref).None? then [Finding(Unresolved, p, i)] else [])
  }

  lemma NoDupConcat<T>(a: seq<T>, b: seq<T>)
    requires NoDup(a) && NoDup(b) && forall x :: x in a ==> x !in b
    ensures NoDup(a + b)
  {
    var s := a + b;
    forall i, j | 0 <= i < j < |s| ensures s[i] != s[j] {
      if i < |a| <= j { assert s[i] in a && s[j] in b; }
    }
  }

  lemma ReportsStep(ws: Workspace, findings: seq<Finding>, visited: set<Path>, gray: map<Path, nat>, p: Path)
    requires p in ws.files && p in gray && gray[p] < |ws.files[p]|
    requires Reports(ws, findings, visited, gray)
    ensures Reports(ws, findings + OwnFindings(ws, p, gray[p]), visited, gray[p := gray[p] + 1])
  {
    NoDupConcat(findings, OwnFindings(ws, p, gray[p]));
  }

  lemma ReportsEnter(ws: Workspace, findings: seq<Finding>, visited: set<Path>, gray: map<Path, nat>, p: Path)
    requires p !in visited && Reports(ws, findings, visited, gray)
    ensures Reports(ws, findings, visited + {p}, gray[p := 0])
    ensures p !in ws.files ==> Reports(ws, findings, visited + {p}, gray)
  {
  }

  lemma ReportsLeave(ws: Workspace, findings: seq<Finding>, visited: set<Path>, gray: map<Path, nat>, p: Path)
    requires p in ws.files && p !in gray && Reports(ws, findings, visited, gray[p := |ws.files[p]|])
    ensures Reports(ws, findings, visited, gray)
  {
  }

  /** The files added by a completed walk of `p`: reachable from it, and closed. */
  ghost predicate Explored(ws: Workspace, p: Path, before: set<Path>, after: set<Path>) {
    && before + {p} <= after
    && (forall q :: q in after - before ==> Reaches(ws, p, q))
    && (forall q, r :: q in after - before && Edge(ws, q, r) ==> r in after)
  }

  /** The same while `p` itself is done only up to its `n`-th reference. */
  ghost predicate Exploring(ws: Workspace, p: Path, before: set<Path>, now: set<Path>, n: nat) {
    && p in ws.files && n <= |ws.files[p]|
    && before + {p} <= now
    && (forall q :: q in now - before ==> Reaches(ws, p, q))
    && (forall q, r :: q in now - before - {p} && Edge(ws, q, r) ==> r in now)
    && (forall j :: 0 <= j < n && Resolve(ws, ws.files[p][j]).Some? ==> Resolve(ws, ws.files[p][j]).value in now)
  }

  lemma ExploreStep(ws: Workspace, p: Path, before: set<Path>, mid: set<Path>, now: set<Path>, n: nat)
    requires p !in before
    requires Exploring(ws, p, before, mid, n) && n < |ws.files[p]|
    requires var target := Resolve(ws, ws.files[p][n]);
             if target.None? then now == mid else Explored(ws, target.value, mid, now)
    ensures Exploring(ws, p, before, now, n + 1)
  {
    var target := Resolve(ws, ws.files[p][n]);
    ResolveIs(ws, ws.files[p][n]);
    if target.Some? {
      assert Edge(ws, p, target.value);
      forall q | q in now - mid ensures Reaches(ws, p, q) {
        ReachesStep(ws, p, target.value, q);
      }
    }
  }

  lemma ExploreDone(ws: Workspace, p: Path, before: set<Path>, now: set<Path>)
    requires p in ws.files && Exploring(ws, p, before, now, |ws.files[p]|)
    ensures Explored(ws, p, before, now)
  {
    forall r | Edge(ws, p, r) ensures r in now {
      var ref :| ref in ws.files[p] && Points(ws, ref, r);
      var j :| 0 <= j < |ws.files[p]| && ws.files[p][j] == ref;
      ResolveIs(ws, ws.files[p][j]);
    }
  }

  /** The `visited` set and `findings` array that the recursive closure shares. */
  class Walker {
    const ws: Workspace
    var visited: set<Path>
    var findings: seq<Finding>
    /** Files being walked by some caller, with the number of references they are past. */
    ghost var gray: map<Path, nat>
    /** Files whose reading was attempted, in order. */
    ghost var readLog: seq<Path>

    constructor (ws: Workspace)
      ensures this.ws == ws && visited == {} && gray == map[] && Valid()
    {
      this.ws, visited, findings, gray, readLog := ws, {}, [], map[], [];
    }

    ghost predicate Valid()
      reads this
    {
      && Reports(ws, findings, visited, gray)
      && NoDup(readLog) && forall q :: q in readLog <==> q in visited
    }

    /**
     * One call visits what is newly reachable and leaves every new file closed; the gray files
     * of its callers are the only visited ones that may still have unvisited targets.
     */
    method Walk(p: Path, ghost universe: set<Path>)
      requires Valid() && ws.existing <= universe && p in universe
      modifies this
      ensures Valid() && gray == old(gray)
      ensures Explored(ws, p, old(visited), visited)
      decreases universe - visited
    {
      if p in visited { return; }
      ghost var before, outer := visited, gray;
      Enter(p);
      if p !in ws.files {
        gray := outer;
        return;
      }
      var refs := ws.files[p];
      for i := 0 to |refs|
        invariant Valid() && gray == outer[p := i]
        invariant Exploring(ws, p, before, visited, i)
      {
        var ref := refs[i];
        ghost var mid := visited;
        Report(p, i);
        var resolution := Resolve(ws, ref);
        if resolution.Some? {
          Walk(resolution.value, universe);
        }
        ExploreStep(ws, p, before, mid, visited, i);
        assert gray == outer[p := i + 1];
      }
      ExploreDone(ws, p, before, visited);
      ReportsLeave(ws, findings, visited, outer, p);
      gray := outer;
    }

    /** Marks `p` visited and opens it. */
    method Enter(p: Path)
      requires Valid() && p !in visited
      modifies this
      ensures visited == old(visited) + {p} && gray == old(gray)[p := 0] && Valid()
      ensures findings == old(findings)
      ensures p !in ws.files ==> Reports(ws, findings, visited, old(gray)) && Explored(ws, p, old(visited), visited)
      ensures p in ws.files ==> Exploring(ws, p, old(visited), visited, 0)
    {
      ReportsEnter(ws, findings, visited, gray, p);
      ReachesSelf(ws, p);
      visited := visited + {p};
      readLog := readLog + [p];
      gray := gray[p := 0];
    }

    /** The findings one reference gives rise to by itself. */
    method Report(p: Path, i: nat)
      requires Valid() && p in ws.files && i < |ws.files[p]| && p in gray && gray[p] == i
      modifies this`findings, this`gray
      ensures Valid() && gray == old(gray)[p := i + 1]
      ensures findings == old(findings) + OwnFindings(ws, p, i)
    {
      var ref := ws.files[p][i];
      ReportsStep(ws, findings, visited, gray, p);
      gray := gray[p := i + 1];
      if BareFilename(ref) {
        findings := findings + [Finding(AtWorkspaceRoot, p, i)];
      }
      if Resolve(ws, ref).None? {
        findings := findings + [Finding(Unresolved, p, i)];
      }
      assert findings == old(findings) + OwnFindings(ws, p, i);
    }
  }

  /** `checkInjectionTargets`, the audit over the message templates of all rules. */
  method CheckInjectionTargets(ws: Workspace, templates: seq<Option<Path>>)
    returns (findings: seq<Finding>, ghost visited: set<Path>, ghost readLog: seq<Path>)
    ensures forall q :: q in visited <==> ReachedByAudit(ws, templates, q)
    ensures NoDup(readLog) && forall q :: q in readLog <==> q in visited
    ensures NoDup(findings)
    ensures forall f :: f in findings <==> Reportable(ws, f) && ReachedByAudit(ws, templates, f.file)
  {
    var walker := new Walker(ws);
    ghost var universe := ws.existing + set t | t in templates && t.Some? :: t.value;
    for i := 0 to |templates|
      invariant walker.Valid() && walker.ws == ws && walker.gray == map[] && fresh(walker)
      invariant Closed(ws, walker.visited)
      invariant forall q :: q in walker.visited ==> ReachedByAudit(ws, templates, q)
      invariant forall j :: 0 <= j < i && templates[j].Some? ==> templates[j].value in walker.visited
    {
      if templates[i].Some? {
        walker.Walk(templates[i].value, universe);
        assert templates[i] in templates;
      }
    }
    findings, visited, readLog := walker.findings, walker.visited, walker.readLog;
    forall q | ReachedByAudit(ws, templates, q) ensures q in visited {
      var t :| t in templates && t.Some? && Reaches(ws, t.value, q);
      var path :| IsPath(ws, path) && path[0] == t.value && path[|path| - 1] == q;
      ClosedContainsReach(ws, visited, path);
    }
  }

  /** Reachable from some rule's template along resolving injections. */
  ghost predicate ReachedByAudit(ws: Workspace, templates: seq<Option<Path>>, q: Path) {
    exists t :: t in templates && t.Some? && Reaches(ws, t.value, q)
  }

  /** Every reference the audit reads passes the rule. */
  ghost predicate AllPass(ws: Workspace, templates: seq<Option<Path>>, rule: Rule) {
    forall q, i :: ReachedByAudit(ws, templates, q) && q in ws.files && 0 <= i < |ws.files[q]| ==>
      !Reportable(ws, Finding(rule, q, i))
  }

  /** An audit has no finding of a rule exactly when every reference it reads passes that rule. */
  lemma NoFindingOfRuleIff(ws: Workspace, templates: seq<Option<Path>>, findings: seq<Finding>, rule: Rule)
    requires forall f :: f in findings <==> Reportable(ws, f) && ReachedByAudit(ws, templates, f.file)
    ensures (forall f :: f in findings ==> f.rule != rule) <==> AllPass(ws, templates, rule)
  {
    if forall f :: f in findings ==> f.rule != rule {
      forall q, i | ReachedByAudit(ws, templates, q) && q in ws.files && 0 <= i < |ws.files[q]|
        ensures !Reportable(ws, Finding(rule, q, i))
      {
        assert Finding(rule, q, i) !in findings;
      }
    } else {
      var f :| f in findings && f.rule == rule;
      assert Reportable(ws, Finding(rule, f.file, f.index));
    }
  }

  /**
   * A clean audit: no finding at all exactly when every reference in every reached readable file
   * resolves and is no bare file name; and no unresolved one exactly when all resolve.
   */
  lemma CleanAuditIff(ws: Workspace, templates: seq<Option<Path>>, findings: seq<Finding>)
    requires forall f :: f in findings <==> Reportable(ws, f) && ReachedByAudit(ws, templates, f.file)
    ensures findings == []
            <==> forall q, ref :: ReachedByAudit(ws, templates, q) && q in ws.files && ref in ws.files[q]
                                  ==> !Missing(ws, ref) && !NamesRootFile(ref)
    ensures (forall f :: f in findings ==> f.rule != Unresolved)
            <==> forall q, ref :: ReachedByAudit(ws, templates, q) && q in ws.files && ref in ws.files[q]
                                  ==> !Missing(ws, ref)
  {
    NoFindingOfRuleIff(ws, templates, findings, Unresolved);
    NoFindingOfRuleIff(ws, templates, findings, AtWorkspaceRoot);
    PassByReference(ws, templates);
    assert findings == [] <==> forall f :: f in findings ==> f.rule != Unresolved && f.rule != AtWorkspaceRoot by {
      if findings != [] { assert findings[0] in findings; }
    }
  }

  /** Reference `i` of `q` is `ref`, and what is reportable of it says so. */
  ghost predicate ReportsOf(ws: Workspace, q: Path, i: nat, ref: Ref) {
    && q in ws.files && i < |ws.files[q]| && ws.files[q][i] == ref
    && (Reportable(ws, Finding(Unresolved, q, i)) <==> Missing(ws, ref))
    && (Reportable(ws, Finding(AtWorkspaceRoot, q, i)) <==> NamesRootFile(ref))
  }

  /** Passing by index is passing by reference. */
  lemma PassByReference(ws: Workspace, templates: seq<Option<Path>>)
    ensures AllPass(ws, templates, Unresolved)
            <==> forall q, ref :: ReachedByAudit(ws, templates, q) && q in ws.files && ref in ws.files[q]
                                  ==> !Missing(ws, ref)
    ensures AllPass(ws, templates, AtWorkspaceRoot)
            <==> forall q, ref :: ReachedByAudit(ws, templates, q) && q in ws.files && ref in ws.files[q]
                                  ==> !NamesRootFile(ref)
  {
    forall q, ref | q in ws.files && ref in ws.files[q]
      ensures exists i: nat :: ReportsOf(ws, q, i, ref)
    {
      var i :| 0 <= i < |ws.files[q]| && ws.files[q][i] == ref;
      assert ReportsOf(ws, q, i, ref);
    }
    forall q, i | q in ws.files && 0 <= i < |ws.files[q]| ensures ws.files[q][i] in ws.files[q] { }
  }
}
