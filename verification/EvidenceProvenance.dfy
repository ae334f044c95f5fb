/** Counting independent evidence: labels of sources, declared groups and causes are
    joined by a union-find with path compression; the answer is a component count. */
module EvidenceProvenance {
  import opened FiniteSets
  import opened Texts

  datatype Kind = Source | Group | Cause
  datatype Label = Label(kind: Kind, value: string)
  datatype Evidence = Evidence(source: string, independenceGroup: string, causalGroup: string, episodeId: string)
  datatype EvidenceCounts = EvidenceCounts(observations: nat, episodes: nat, sources: nat, causalGroups: nat, independentGroups: nat)

  // ---------- Trimmed fields ----------

  function TrimLeft(s: string): string {
    if s != [] && IsSpace(s[0]) then TrimLeft(s[1..]) else s
  }

  function TrimRight(s: string): string {
    if s != [] && IsSpace(s[|s| - 1]) then TrimRight(s[..|s| - 1]) else s
  }

  function TrimSpace(s: string): string {
    TrimRight(TrimLeft(s))
  }

  function SourceOf(e: Evidence): Label { Label(Source, TrimSpace(e.source)) }
  function GroupOf(e: Evidence): Label { Label(Group, TrimSpace(e.independenceGroup)) }
  function CauseOf(e: Evidence): Label { Label(Cause, TrimSpace(e.causalGroup)) }
  predicate Attributed(e: Evidence) { SourceOf(e).value != "" }
  predicate Declares(e: Evidence) { Attributed(e) && GroupOf(e).value != "" }
  predicate HasCause(e: Evidence) { CauseOf(e).value != "" }
  predicate NamesCause(e: Evidence) { Attributed(e) && HasCause(e) }
  function Episode(e: Evidence): string { TrimSpace(e.episodeId) }
  predicate NamesEpisode(e: Evidence) { Episode(e) != "" }

  // ---------- The provenance graph ----------

  type Edge = (Label, Label)

  function GroupEdge(e: Evidence): Edge { (SourceOf(e), GroupOf(e)) }
  function CauseEdge(e: Evidence): Edge { (SourceOf(e), CauseOf(e)) }

  ghost function EdgesOf(es: set<Evidence>): set<Edge> {
    Collected(es, Declares, GroupEdge) + Collected(es, NamesCause, CauseEdge)
  }

  ghost function LabelsOf(es: set<Evidence>): set<Label> {
    Collected(es, Attributed, SourceOf) + DeclaredOf(es) + Collected(es, NamesCause, CauseOf)
  }

  ghost function DeclaredOf(es: set<Evidence>): set<Label> {
    Collected(es, Declares, GroupOf)
  }

  ghost predicate Adjacent(edges: set<Edge>, x: Label, y: Label) {
    (x, y) in edges || (y, x) in edges
  }

  ghost predicate IsPath(edges: set<Edge>, p: seq<Label>) {
    |p| >= 1 && forall i | 0 <= i < |p| - 1 :: Adjacent(edges, p[i], p[i + 1])
  }

  ghost predicate Connects(edges: set<Edge>, p: seq<Label>, x: Label, y: Label) {
    IsPath(edges, p) && p[0] == x && p[|p| - 1] == y
  }

  ghost predicate Connected(edges: set<Edge>, x: Label, y: Label) {
    exists p :: Connects(edges, p, x, y)
  }

  ghost function Component(es: set<Evidence>, x: Label): set<Label> {
    set y | y in LabelsOf(es) && Connected(EdgesOf(es), x, y)
  }

  /** The connected components that contain a declared group. */
  ghost function DeclaredComponents(es: set<Evidence>): set<set<Label>> {
    set g | g in DeclaredOf(es) :: Component(es, g)
  }

  lemma ConnectedReflexive(edges: set<Edge>, x: Label)
    ensures Connected(edges, x, x)
  {
    assert Connects(edges, [x], x, x);
  }

  lemma ConnectedTransitive(edges: set<Edge>, x: Label, y: Label, z: Label)
    requires Connected(edges, x, y) && Connected(edges, y, z)
    ensures Connected(edges, x, z)
  {
    var p :| Connects(edges, p, x, y);
    var q :| Connects(edges, q, y, z);
    var r := p + q[1..];
    forall i | 0 <= i < |r| - 1 ensures Adjacent(edges, r[i], r[i + 1]) {
      if i >= |p| - 1 {
        assert r[i] == q[i - |p| + 1] && r[i + 1] == q[i - |p| + 2];
      }
    }
    assert Connects(edges, r, x, z);
  }

  lemma ConnectedMonotone(edges: set<Edge>, more: set<Edge>, x: Label, y: Label)
    requires Connected(edges, x, y) && edges <= more
    ensures Connected(more, x, y)
  {
    var p :| Connects(edges, p, x, y);
    assert Connects(more, p, x, y);
  }

  /** A labelling that no edge crosses is constant along paths. */
  lemma {:induction false} PathKeeps<T>(edges: set<Edge>, f: Label -> T, p: seq<Label>)
    requires IsPath(edges, p)
    requires forall e | e in edges :: f(e.0) == f(e.1)
    ensures f(p[0]) == f(p[|p| - 1])
  {
    if |p| > 1 {
      var front := p[..|p| - 1];
      forall i | 0 <= i < |front| - 1 ensures Adjacent(edges, front[i], front[i + 1]) {
        assert Adjacent(edges, p[i], p[i + 1]);
      }
      PathKeeps(edges, f, front);
      assert Adjacent(edges, p[|p| - 2], p[|p| - 2 + 1]);
    }
  }

  // ---------- The forest ----------

  type Forest = map<Label, Label>

  /** `rep` is the root each label leads to; `rank` rises strictly towards the root,
      which is the witness that the parent map has no cycle but at its roots. */
  ghost predicate IsForest(parents: Forest, rep: Forest, rank: map<Label, nat>)
    ensures IsForest(parents, rep, rank) ==> parents.Keys == rep.Keys == rank.Keys
  {
    parents.Keys == rep.Keys == rank.Keys &&
    forall k {:trigger WellPlaced(parents, rep, rank, k)} | k in parents :: WellPlaced(parents, rep, rank, k)
  }

  ghost predicate WellPlaced(parents: Forest, rep: Forest, rank: map<Label, nat>, k: Label)
    requires parents.Keys == rep.Keys == rank.Keys && k in parents
  {
    parents[k] in parents && rep[k] in parents && parents[rep[k]] == rep[k] &&
    rep[parents[k]] == rep[k] && (parents[k] == k <==> rep[k] == k) &&
    (parents[k] != k ==> rank[k] < rank[parents[k]]) && rank[k] <= rank[rep[k]]
  }

  lemma CompressKeepsForest(parents: Forest, rep: Forest, rank: map<Label, nat>, k: Label)
    requires IsForest(parents, rep, rank) && k in parents
    ensures IsForest(parents[k := rep[k]], rep, rank)
  {
    var after := parents[k := rep[k]];
    var p := parents[k];
    assert WellPlaced(parents, rep, rank, k) && WellPlaced(parents, rep, rank, p);
    assert WellPlaced(parents, rep, rank, rep[k]);
    forall j | j in after ensures WellPlaced(after, rep, rank, j) {
      assert WellPlaced(parents, rep, rank, j);
    }
  }

  lemma AddKeepsForest(parents: Forest, rep: Forest, rank: map<Label, nat>, k: Label)
    requires IsForest(parents, rep, rank) && k !in parents
    ensures IsForest(parents[k := k], rep[k := k], rank[k := 0])
  {
    var parents', rep', rank' := parents[k := k], rep[k := k], rank[k := 0];
    forall j | j in parents' ensures WellPlaced(parents', rep', rank', j) {
      if j != k { assert WellPlaced(parents, rep, rank, j); }
    }
  }

  ghost function Merged(rep: Forest, ra: Label, rb: Label): (m: Forest)
    ensures m.Keys == rep.Keys && (ra == rb ==> m == rep)
  {
    map k | k in rep :: if rep[k] == rb then ra else rep[k]
  }

  ghost function Raised(rank: map<Label, nat>, ra: Label, rb: Label): map<Label, nat>
    requires ra in rank && rb in rank
  {
    rank[ra := if rank[ra] > rank[rb] then rank[ra] else rank[rb] + 1]
  }

  lemma LinkKeepsForest(parents: Forest, rep: Forest, rank: map<Label, nat>, ra: Label, rb: Label)
    requires IsForest(parents, rep, rank) && ra in parents && rb in parents && ra != rb
    requires rep[ra] == ra && rep[rb] == rb
    ensures IsForest(parents[rb := ra], Merged(rep, ra, rb), Raised(rank, ra, rb))
  {
    var parents', rep', rank' := parents[rb := ra], Merged(rep, ra, rb), Raised(rank, ra, rb);
    assert WellPlaced(parents, rep, rank, ra) && WellPlaced(parents, rep, rank, rb);
    forall j | j in parents' ensures WellPlaced(parents', rep', rank', j) {
      assert WellPlaced(parents, rep, rank, j);
      assert WellPlaced(parents, rep, rank, parents[j]);
      assert WellPlaced(parents, rep, rank, rep[j]);
    }
  }

  // ---------- The forest's classes are the graph's components ----------

  ghost predicate Represents(rep: Forest, edges: set<Edge>) {
    (forall e | e in edges :: e.0 in rep && e.1 in rep && rep[e.0] == rep[e.1]) &&
    (forall x, y | x in rep && y in rep && rep[x] == rep[y] :: Connected(edges, x, y))
  }

  ghost function Grown(rep: Forest, k: Label): (r: Forest)
    ensures r.Keys == rep.Keys + {k} && forall j | j in rep :: r[j] == rep[j]
  {
    if k in rep then rep else rep[k := k]
  }

  lemma GrownRepresents(parents: Forest, rep: Forest, rank: map<Label, nat>, edges: set<Edge>, k: Label)
    requires IsForest(parents, rep, rank) && Represents(rep, edges)
    ensures Represents(Grown(rep, k), edges)
  {
    if k !in rep {
      ConnectedReflexive(edges, k);
      forall x | x in rep ensures rep[x] != k {
        assert WellPlaced(parents, rep, rank, x);
      }
    }
  }

  lemma JoinRepresents(rep: Forest, edges: set<Edge>, a: Label, b: Label)
    requires Represents(rep, edges) && a in rep && b in rep
    ensures Represents(Merged(rep, rep[a], rep[b]), edges + {(a, b)})
  {
    var rep', more := Merged(rep, rep[a], rep[b]), edges + {(a, b)};
    assert Connects(more, [a, b], a, b) && Connects(more, [b, a], b, a);
    forall x, y | x in rep && y in rep && rep'[x] == rep'[y] ensures Connected(more, x, y) {
      if rep[x] == rep[y] {
        ConnectedMonotone(edges, more, x, y);
      } else {
        var c, d := if rep[x] == rep[a] then a else b, if rep[x] == rep[a] then b else a;
        ConnectedMonotone(edges, more, x, c);
        ConnectedMonotone(edges, more, d, y);
        ConnectedTransitive(more, x, c, d);
        ConnectedTransitive(more, x, d, y);
      }
    }
  }

  /** Both directions: labels share a root exactly when a path joins them. */
  lemma SameRootIffConnected(rep: Forest, edges: set<Edge>, x: Label, y: Label)
    requires Represents(rep, edges) && x in rep && y in rep
    ensures rep[x] == rep[y] <==> Connected(edges, x, y)
  {
    if Connected(edges, x, y) {
      var p :| Connects(edges, p, x, y);
      PathKeeps(edges, (k: Label) => if k in rep then rep[k] else k, p);
    }
  }

  ghost function Climb(rep: Forest, rank: map<Label, nat>, k: Label): nat {
    if k in rep && k in rank && rep[k] in rank && rank[k] <= rank[rep[k]] then rank[rep[k]] - rank[k] else 0
  }

  class LabelForest {
    var parents: Forest
    ghost var rep: Forest
    ghost var rank: map<Label, nat>

    ghost predicate Valid()
      reads this
    {
      IsForest(parents, rep, rank)
    }

    constructor ()
      ensures Valid() && rep == map[]
    {
      parents, rep, rank := map[], map[], map[];
    }

    /** The root of k, added when new. Compression rewrites parents, never the classes. */
    method Root(k: Label) returns (r: Label)
      requires Valid()
      modifies this
      ensures Valid()
      ensures rep == Grown(old(rep), k)
      ensures rank == if k in old(rep) then old(rank) else old(rank)[k := 0]
      ensures r == rep[k] && parents[k] == r && r in rep && rep[r] == r
      decreases Climb(rep, rank, k)
    {
      if k !in parents {
        AddKeepsForest(parents, rep, rank, k);
        parents := parents[k := k];
        rep, rank := rep[k := k], rank[k := 0];
        return k;
      }
      assert WellPlaced(parents, rep, rank, k);
      var p := parents[k];
      if p != k {
        assert WellPlaced(parents, rep, rank, p);
        var top := Root(p);
        CompressKeepsForest(parents, rep, rank, k);
        parents := parents[k := top];
      }
      return parents[k];
    }

    method Join(a: Label, b: Label, ghost edges: set<Edge>)
      requires Valid() && Represents(rep, edges)
      modifies this
      ensures Valid() && Represents(rep, edges + {(a, b)})
      ensures forall k :: k in rep <==> k in old(rep) || k == a || k == b
    {
      hide IsForest, Represents, Merged, Raised, Grown;
      GrownRepresents(parents, rep, rank, edges, a);
      var ra := Root(a);
      GrownRepresents(parents, rep, rank, edges, b);
      var rb := Root(b);
      JoinRepresents(rep, edges, a, b);
      if ra != rb {
        LinkKeepsForest(parents, rep, rank, ra, rb);
        parents := parents[rb := ra];
        rep, rank := Merged(rep, ra, rb), Raised(rank, ra, rb);
      }
    }
  }

  // ---------- The counts ----------

  ghost function EpisodesOf(es: set<Evidence>): set<string> {
    Collected(es, NamesEpisode, Episode)
  }

  ghost function SourcesOf(es: set<Evidence>): set<Label> {
    Collected(es, Attributed, SourceOf)
  }

  /** Causes are counted on unattributed evidence too. */
  ghost function CausesOf(es: set<Evidence>): set<Label> {
    Collected(es, HasCause, CauseOf)
  }

  ghost function SetOf(es: seq<Evidence>): set<Evidence> {
    set e | e in es
  }

  ghost function CountsOf(es: seq<Evidence>): EvidenceCounts {
    var all := SetOf(es);
    EvidenceCounts(|es|, |EpisodesOf(all)|, |SourcesOf(all)|, |CausesOf(all)|, |DeclaredComponents(all)|)
  }

  ghost function RootsOf(rep: Forest, declared: seq<Label>): set<Label> {
    set g | g in declared && g in rep :: rep[g]
  }

  lemma RootsCountComponents(rep: Forest, es: set<Evidence>, declared: seq<Label>)
    requires Represents(rep, EdgesOf(es)) && forall k :: k in rep <==> k in LabelsOf(es)
    requires forall g :: g in declared <==> g in DeclaredOf(es)
    ensures |RootsOf(rep, declared)| == |DeclaredComponents(es)|
  {
    hide Represents, Connected, EdgesOf;
    var roots := RootsOf(rep, declared);
    var members := (r: Label) => set y | y in rep && rep[y] == r;
    forall g | g in DeclaredOf(es) ensures members(rep[g]) == Component(es, g) {
      forall y | y in rep ensures rep[y] == rep[g] <==> Connected(EdgesOf(es), g, y) {
        SameRootIffConnected(rep, EdgesOf(es), g, y);
      }
    }
    forall r, q | r in roots && q in roots && members(r) == members(q) ensures r == q {
      var g :| g in declared && g in rep && rep[g] == r;
      assert g in members(q);
    }
    ImageSize(members, roots);
    assert Image(members, roots) == DeclaredComponents(es);
  }

  /** What the forest stands for after the evidence in `es`. */
  ghost predicate Tracks(rep: Forest, es: set<Evidence>) {
    Represents(rep, EdgesOf(es)) && forall k :: k in rep <==> k in LabelsOf(es)
  }

  lemma EdgesGrow(es: set<Evidence>, e: Evidence)
    ensures EdgesOf(es + {e}) == EdgesOf(es) +
              (if Declares(e) then {GroupEdge(e)} else {}) + (if NamesCause(e) then {CauseEdge(e)} else {})
    ensures LabelsOf(es + {e}) == LabelsOf(es) + (if Attributed(e) then {SourceOf(e)} else {}) +
              (if Declares(e) then {GroupOf(e)} else {}) + (if NamesCause(e) then {CauseOf(e)} else {})
    ensures DeclaredOf(es + {e}) == DeclaredOf(es) + (if Declares(e) then {GroupOf(e)} else {})
  {
    hide Collected, Declares, NamesCause, Attributed, GroupEdge, CauseEdge, SourceOf, GroupOf, CauseOf;
    CollectedGrows(es, e, Declares, GroupEdge);
    CollectedGrows(es, e, NamesCause, CauseEdge);
    CollectedGrows(es, e, Attributed, SourceOf);
    CollectedGrows(es, e, Declares, GroupOf);
    CollectedGrows(es, e, NamesCause, CauseOf);
  }

  lemma RecordTracks(before: Forest, after: Forest, es: set<Evidence>, e: Evidence)
    requires Tracks(before, es) && Attributed(e)
    requires Represents(after, EdgesOf(es) + (if Declares(e) then {GroupEdge(e)} else {}) +
                                (if NamesCause(e) then {CauseEdge(e)} else {}))
    requires forall k :: k in after <==>
               k in before || k == SourceOf(e) || (Declares(e) && k == GroupOf(e)) || (NamesCause(e) && k == CauseOf(e))
    ensures Tracks(after, es + {e})
  {
    hide EdgesOf, LabelsOf, SourceOf, GroupOf, CauseOf;
    EdgesGrow(es, e);
  }

  /** Joining the labels of one attributed observation. */
  method Record(forest: LabelForest, e: Evidence, ghost es: set<Evidence>)
    requires forest.Valid() && Tracks(forest.rep, es) && Attributed(e)
    modifies forest
    ensures forest.Valid() && Tracks(forest.rep, es + {e})
  {
    hide IsForest, Represents, EdgesOf, LabelsOf, SourceOf, GroupOf, CauseOf;
    ghost var before, edges := forest.rep, EdgesOf(es);
    var s := SourceOf(e);
    GrownRepresents(forest.parents, forest.rep, forest.rank, edges, s);
    var _ := forest.Root(s);
    assert edges + {} == edges;
    if Declares(e) {
      forest.Join(s, GroupOf(e), edges);
    }
    edges := edges + if Declares(e) then {GroupEdge(e)} else {};
    assert edges + {} == edges;
    if NamesCause(e) {
      forest.Join(s, CauseOf(e), edges);
    }
    RecordTracks(before, forest.rep, es, e);
  }

  ghost predicate Tallied(es: set<Evidence>, episodes: set<string>, sources: set<Label>, causes: set<Label>, declared: seq<Label>) {
    episodes == EpisodesOf(es) && sources == SourcesOf(es) && causes == CausesOf(es) &&
    forall g :: g in declared <==> g in DeclaredOf(es)
  }

  lemma TalliedGrows(es: set<Evidence>, e: Evidence, episodes: set<string>, sources: set<Label>, causes: set<Label>, declared: seq<Label>)
    requires Tallied(es, episodes, sources, causes, declared)
    ensures Tallied(es + {e}, episodes + (if NamesEpisode(e) then {Episode(e)} else {}),
                    sources + (if Attributed(e) then {SourceOf(e)} else {}),
                    causes + (if HasCause(e) then {CauseOf(e)} else {}),
                    declared + (if Declares(e) then [GroupOf(e)] else []))
  {
    hide Collected, Episode, SourceOf, CauseOf, GroupOf, Declares, Attributed;
    CollectedGrows(es, e, NamesEpisode, Episode);
    CollectedGrows(es, e, Attributed, SourceOf);
    CollectedGrows(es, e, HasCause, CauseOf);
    CollectedGrows(es, e, Declares, GroupOf);
  }

  lemma UnattributedTracks(rep: Forest, es: set<Evidence>, e: Evidence)
    requires Tracks(rep, es) && !Attributed(e)
    ensures Tracks(rep, es + {e})
  {
    EdgesGrow(es, e);
    assert EdgesOf(es + {e}) == EdgesOf(es);
  }

  method CountEvidenceProvenance(evidence: seq<Evidence>) returns (counts: EvidenceCounts)
    ensures counts == CountsOf(evidence)
    ensures CountsFields(counts, evidence)
  {
    CountsOnFields(evidence);
    hide CountsFields;
    var forest := new LabelForest();
    var episodes, sources, causes, declared := {}, {}, {}, [];
    for i := 0 to |evidence|
      invariant fresh(forest) && forest.Valid() && Tracks(forest.rep, SetOf(evidence[..i]))
      invariant Tallied(SetOf(evidence[..i]), episodes, sources, causes, declared)
    {
      hide IsForest, Tracks, Tallied, Attributed, SourceOf, CauseOf, GroupOf, Episode;
      var e := evidence[i];
      ghost var es := SetOf(evidence[..i]);
      assert SetOf(evidence[..i + 1]) == es + {e};
      TalliedGrows(es, e, episodes, sources, causes, declared);
      episodes := episodes + if NamesEpisode(e) then {Episode(e)} else {};
      sources := sources + if Attributed(e) then {SourceOf(e)} else {};
      causes := causes + if HasCause(e) then {CauseOf(e)} else {};
      declared := declared + if Declares(e) then [GroupOf(e)] else [];
      if Attributed(e) {
        Record(forest, e, es);
      } else {
        UnattributedTracks(forest.rep, es, e);
      }
    }
    assert evidence[..|evidence|] == evidence;
    var components := CountRoots(forest, declared, SetOf(evidence));
    return EvidenceCounts(|evidence|, |episodes|, |sources|, |causes|, components);
  }

  lemma RootsGrow(rep: Forest, declared: seq<Label>, g: Label)
    requires g in rep
    ensures RootsOf(rep, declared + [g]) == RootsOf(rep, declared) + {rep[g]}
  {
    forall r ensures r in RootsOf(rep, declared + [g]) <==> r in RootsOf(rep, declared) || r == rep[g] {
      assert g in declared + [g];
    }
  }

  method CountRoots(forest: LabelForest, declared: seq<Label>, ghost es: set<Evidence>) returns (count: nat)
    requires forest.Valid() && Tracks(forest.rep, es)
    requires forall g :: g in declared <==> g in DeclaredOf(es)
    modifies forest
    ensures count == |DeclaredComponents(es)|
  {
    ghost var rep := forest.rep;
    assert forall g | g in declared :: g in rep by {
      assert DeclaredOf(es) <= LabelsOf(es);
    }
    assert RootsOf(rep, declared[..0]) == {};
    hide IsForest, DeclaredOf, LabelsOf, RootsOf, Represents, EdgesOf, DeclaredComponents;
    var components := {};
    for i := 0 to |declared|
      invariant forest.Valid() && forest.rep == rep
      invariant components == RootsOf(rep, declared[..i])
    {
      assert declared[..i + 1] == declared[..i] + [declared[i]];
      var r := forest.Root(declared[i]);
      RootsGrow(rep, declared[..i], declared[i]);
      components := components + {r};
    }
    assert declared[..|declared|] == declared;
    RootsCountComponents(rep, es, declared);
    return |components|;
  }

  // ---------- The count on the fields of the evidence ----------

  ghost predicate AllSpace(s: string) {
    forall i | 0 <= i < |s| :: IsSpace(s[i])
  }

  ghost predicate NoSpaceAtEnds(s: string) {
    s == "" || (!IsSpace(s[0]) && !IsSpace(s[|s| - 1]))
  }

  /** Trimming takes the space off both ends and nothing else. */
  lemma {:induction false} TrimSpaceSplits(s: string) returns (left: string, right: string)
    ensures s == left + TrimSpace(s) + right && AllSpace(left) && AllSpace(right) && NoSpaceAtEnds(TrimSpace(s))
  {
    var l := TrimLeftSplits(s);
    var mid := TrimLeft(s);
    var r := TrimRightSplits(mid);
    left, right := l, r;
    assert s == left + (TrimSpace(s) + right);
    if TrimSpace(s) != "" { assert mid[0] == TrimSpace(s)[0]; }
  }

  lemma {:induction false} TrimLeftSplits(s: string) returns (left: string)
    ensures s == left + TrimLeft(s) && AllSpace(left) && (TrimLeft(s) != "" ==> !IsSpace(TrimLeft(s)[0]))
  {
    left := "";
    if s != [] && IsSpace(s[0]) {
      var rest := TrimLeftSplits(s[1..]);
      left := [s[0]] + rest;
    }
  }

  lemma {:induction false} TrimRightSplits(s: string) returns (right: string)
    ensures s == TrimRight(s) + right && AllSpace(right) && (TrimRight(s) != "" ==> !IsSpace(TrimRight(s)[|TrimRight(s)| - 1]))
  {
    right := "";
    if s != [] && IsSpace(s[|s| - 1]) {
      var rest := TrimRightSplits(s[..|s| - 1]);
      right := rest + [s[|s| - 1]];
      assert s == s[..|s| - 1] + [s[|s| - 1]];
    }
  }

  /** Two attributed observations share a source, a declared group or a cause. */
  ghost predicate Linked(a: Evidence, b: Evidence) {
    && TrimSpace(a.source) != "" && TrimSpace(b.source) != ""
    && (|| TrimSpace(a.source) == TrimSpace(b.source)
        || (TrimSpace(a.independenceGroup) != "" && TrimSpace(a.independenceGroup) == TrimSpace(b.independenceGroup))
        || (TrimSpace(a.causalGroup) != "" && TrimSpace(a.causalGroup) == TrimSpace(b.causalGroup)))
  }

  ghost predicate Chains(es: set<Evidence>, c: seq<Evidence>, a: Evidence, b: Evidence) {
    && |c| >= 1 && c[0] == a && c[|c| - 1] == b && (forall i | 0 <= i < |c| :: c[i] in es)
    && forall i | 0 <= i < |c| - 1 :: Linked(c[i], c[i + 1])
  }

  ghost predicate Chained(es: set<Evidence>, a: Evidence, b: Evidence) { exists c :: Chains(es, c, a, b) }

  /** The observations that an observation is linked to, directly or through others. */
  ghost function Cluster(es: set<Evidence>, a: Evidence): set<Evidence> {
    set b | b in es && Chained(es, a, b)
  }

  /** The clusters of the observations that declare a group. */
  ghost function Clusters(es: set<Evidence>): set<set<Evidence>> {
    set a | a in es && TrimSpace(a.source) != "" && TrimSpace(a.independenceGroup) != "" :: Cluster(es, a)
  }

  /** The five counts, on the trimmed fields alone. */
  ghost predicate CountsFields(counts: EvidenceCounts, evidence: seq<Evidence>) {
    && counts.observations == |evidence|
    && counts.episodes == |set e | e in evidence && TrimSpace(e.episodeId) != "" :: TrimSpace(e.episodeId)|
    && counts.sources == |set e | e in evidence && TrimSpace(e.source) != "" :: TrimSpace(e.source)|
    && counts.causalGroups == |set e | e in evidence && TrimSpace(e.causalGroup) != "" :: TrimSpace(e.causalGroup)|
    && counts.independentGroups == |Clusters(SetOf(evidence))|
  }

  lemma EdgeConnects(edges: set<Edge>, x: Label, y: Label)
    requires (x, y) in edges
    ensures Connected(edges, x, y) && Connected(edges, y, x)
  {
    assert Connects(edges, [x, y], x, y) && Connects(edges, [y, x], y, x);
  }

  lemma EdgesIn(es: set<Evidence>, e: Evidence)
    requires e in es
    ensures Declares(e) ==> (SourceOf(e), GroupOf(e)) in EdgesOf(es)
    ensures NamesCause(e) ==> (SourceOf(e), CauseOf(e)) in EdgesOf(es)
  {
    hide SourceOf, GroupOf, CauseOf, Declares, NamesCause;
  }

  lemma FieldsAreLabels(a: Evidence, b: Evidence)
    ensures Linked(a, b) <==>
              && Attributed(a) && Attributed(b)
              && (|| SourceOf(a) == SourceOf(b) || (Declares(a) && Declares(b) && GroupOf(a) == GroupOf(b))
                  || (NamesCause(a) && NamesCause(b) && CauseOf(a) == CauseOf(b)))
  {
    hide TrimSpace;
  }

  lemma LinkConnects(es: set<Evidence>, a: Evidence, b: Evidence)
    requires a in es && b in es && Linked(a, b)
    ensures Connected(EdgesOf(es), SourceOf(a), SourceOf(b))
  {
    hide EdgesOf, SourceOf, GroupOf, CauseOf, Declares, NamesCause, Connected, Linked;
    var edges := EdgesOf(es);
    FieldsAreLabels(a, b);
    EdgesIn(es, a);
    EdgesIn(es, b);
    if SourceOf(a) == SourceOf(b) {
      ConnectedReflexive(edges, SourceOf(a));
    } else if Declares(a) && Declares(b) && GroupOf(a) == GroupOf(b) {
      EdgeConnects(edges, SourceOf(a), GroupOf(a));
      EdgeConnects(edges, SourceOf(b), GroupOf(b));
      ConnectedTransitive(edges, SourceOf(a), GroupOf(a), SourceOf(b));
    } else {
      EdgeConnects(edges, SourceOf(a), CauseOf(a));
      EdgeConnects(edges, SourceOf(b), CauseOf(b));
      ConnectedTransitive(edges, SourceOf(a), CauseOf(a), SourceOf(b));
    }
  }

  lemma {:induction false} ChainConnects(es: set<Evidence>, c: seq<Evidence>, a: Evidence, b: Evidence)
    requires Chains(es, c, a, b)
    ensures Connected(EdgesOf(es), SourceOf(a), SourceOf(b))
    decreases |c|
  {
    hide EdgesOf, SourceOf, Connected, Linked;
    if |c| == 1 {
      ConnectedReflexive(EdgesOf(es), SourceOf(a));
    } else {
      var m := c[|c| - 2];
      ChainConnects(es, c[..|c| - 1], a, m);
      assert Linked(c[|c| - 2], c[|c| - 2 + 1]);
      LinkConnects(es, m, b);
      ConnectedTransitive(EdgesOf(es), SourceOf(a), SourceOf(m), SourceOf(b));
    }
  }

  lemma ChainExtends(es: set<Evidence>, a: Evidence, m: Evidence, b: Evidence)
    requires Chained(es, a, m) && b in es && Linked(m, b)
    ensures Chained(es, a, b)
  {
    hide Linked;
    var c :| Chains(es, c, a, m);
    assert Chains(es, c + [b], a, b);
  }

  ghost predicate Carries(e: Evidence, k: Label) {
    k == SourceOf(e) || (Declares(e) && k == GroupOf(e)) || (NamesCause(e) && k == CauseOf(e))
  }

  ghost predicate CarriedBeyond(es: set<Evidence>, a: Evidence, k: Label) {
    exists e :: e in es && Attributed(e) && Carries(e, k) && Chained(es, a, e)
  }

  /** Labels of different kinds never meet, so carrying one label of an observation is a link to it. */
  lemma CarriersAreLinked(d: Evidence, e: Evidence, k: Label)
    requires Attributed(d) && Attributed(e) && Carries(d, k) && Carries(e, k)
    ensures Linked(d, e)
  {
    FieldsAreLabels(d, e);
    hide TrimSpace, Linked;
  }

  lemma CarriedAcross(es: set<Evidence>, a: Evidence, e: Evidence, k: Label, l: Label)
    requires e in es && Attributed(e) && Carries(e, k) && Carries(e, l) && CarriedBeyond(es, a, k)
    ensures CarriedBeyond(es, a, l)
  {
    hide Carries, Linked, Chained, Attributed;
    var d :| d in es && Attributed(d) && Carries(d, k) && Chained(es, a, d);
    CarriersAreLinked(d, e, k);
    ChainExtends(es, a, d, e);
  }

  lemma EdgeCarries(es: set<Evidence>, a: Evidence, edge: Edge)
    requires edge in EdgesOf(es)
    ensures CarriedBeyond(es, a, edge.0) == CarriedBeyond(es, a, edge.1)
  {
    hide CarriedBeyond, TrimSpace, Chained;
    var e :| e in es && Attributed(e) && Carries(e, edge.0) && Carries(e, edge.1);
    if CarriedBeyond(es, a, edge.0) { CarriedAcross(es, a, e, edge.0, edge.1); }
    if CarriedBeyond(es, a, edge.1) { CarriedAcross(es, a, e, edge.1, edge.0); }
  }

  /** Chains of linked observations are the paths between their sources. */
  lemma ChainedIffConnected(es: set<Evidence>, a: Evidence, b: Evidence)
    requires a in es && b in es && Attributed(a) && Attributed(b)
    ensures Chained(es, a, b) <==> Connected(EdgesOf(es), SourceOf(a), SourceOf(b))
  {
    hide EdgesOf, SourceOf, GroupOf, CauseOf, Attributed, Linked;
    var edges := EdgesOf(es);
    if Chained(es, a, b) {
      var c :| Chains(es, c, a, b);
      ChainConnects(es, c, a, b);
    }
    if p :| Connects(edges, p, SourceOf(a), SourceOf(b)) {
      forall edge | edge in edges ensures CarriedBeyond(es, a, edge.0) == CarriedBeyond(es, a, edge.1) {
        EdgeCarries(es, a, edge);
      }
      PathKeeps(edges, k => CarriedBeyond(es, a, k), p);
      assert Chains(es, [a], a, a) && Carries(a, SourceOf(a));
      assert CarriedBeyond(es, a, SourceOf(b));
      var d :| d in es && Attributed(d) && Carries(d, SourceOf(b)) && Chained(es, a, d);
      CarriersAreLinked(d, b, SourceOf(b));
      ChainExtends(es, a, d, b);
    }
  }

  lemma ChainedAreAttributed(es: set<Evidence>, a: Evidence, b: Evidence)
    requires Attributed(a) && Chained(es, a, b)
    ensures Attributed(b)
  {
    hide TrimSpace;
    var c :| Chains(es, c, a, b);
    if |c| > 1 { assert Linked(c[|c| - 2], c[|c| - 2 + 1]); }
  }

  /** A declaring observation's cluster is its component, seen through the sources. */
  lemma ClusterIsComponent(es: set<Evidence>, a: Evidence, b: Evidence)
    requires a in es && Declares(a) && b in es
    ensures b in Cluster(es, a) <==> Attributed(b) && SourceOf(b) in Component(es, GroupOf(a))
  {
    hide EdgesOf, SourceOf, GroupOf, CauseOf, Connected, Chained, Declares, NamesCause;
    DeclaringIsAttributed(a);
    if Chained(es, a, b) { ChainedAreAttributed(es, a, b); }
    if Attributed(b) {
      ChainedIffConnected(es, a, b);
      var edges := EdgesOf(es);
      EdgesIn(es, a);
      EdgeConnects(edges, SourceOf(a), GroupOf(a));
      SourceIsLabel(es, b);
      if Connected(edges, SourceOf(a), SourceOf(b)) { ConnectedTransitive(edges, GroupOf(a), SourceOf(a), SourceOf(b)); }
      if Connected(edges, GroupOf(a), SourceOf(b)) { ConnectedTransitive(edges, SourceOf(a), GroupOf(a), SourceOf(b)); }
    }
  }

  lemma DeclaringIsAttributed(a: Evidence)
    requires Declares(a)
    ensures Attributed(a)
  {
  }

  lemma SourceIsLabel(es: set<Evidence>, b: Evidence)
    requires b in es && Attributed(b)
    ensures SourceOf(b) in LabelsOf(es)
  {
    hide SourceOf, Attributed;
  }

  lemma DeclaringFields(e: Evidence)
    ensures Declares(e) <==> TrimSpace(e.source) != "" && TrimSpace(e.independenceGroup) != ""
  {
  }

  /** There are as many clusters of declaring observations as components that hold a declared group. */
  lemma ClustersAreComponents(es: set<Evidence>)
    ensures |Clusters(es)| == |DeclaredComponents(es)|
  {
    hide EdgesOf, LabelsOf, SourceOf, GroupOf, Component, Cluster, TrimSpace, Declares, Attributed;
    var components := DeclaredComponents(es);
    var members := (c: set<Label>) => set b | b in es && Attributed(b) && SourceOf(b) in c;
    forall a | a in es && Declares(a) ensures members(Component(es, GroupOf(a))) == Cluster(es, a) {
      forall b ensures b in members(Component(es, GroupOf(a))) <==> b in Cluster(es, a) {
        if b in es { ClusterIsComponent(es, a, b); }
        ClusterWithin(es, a);
      }
    }
    forall c, d | c in components && d in components && members(c) == members(d) ensures c == d {
      var a :| a in es && Declares(a) && c == Component(es, GroupOf(a));
      var b :| b in es && Declares(b) && d == Component(es, GroupOf(b));
      SameMembers(es, a, b);
    }
    ImageSize(members, components);
    forall e ensures Declares(e) <==> TrimSpace(e.source) != "" && TrimSpace(e.independenceGroup) != "" { DeclaringFields(e); }
    forall x ensures x in Image(members, components) <==> x in Clusters(es) {
      if x in Clusters(es) {
        var a :| a in es && Declares(a) && x == Cluster(es, a);
        assert Component(es, GroupOf(a)) in components;
      }
      if x in Image(members, components) {
        var a :| a in es && Declares(a) && x == members(Component(es, GroupOf(a)));
        assert x == Cluster(es, a);
      }
    }
    assert Image(members, components) == Clusters(es);
  }

  lemma ClusterWithin(es: set<Evidence>, a: Evidence)
    ensures Cluster(es, a) <= es
  {
  }

  /** Observations with the same cluster have the same component. */
  lemma SameMembers(es: set<Evidence>, a: Evidence, b: Evidence)
    requires a in es && b in es && Declares(a) && Declares(b) && Cluster(es, a) == Cluster(es, b)
    ensures Component(es, GroupOf(a)) == Component(es, GroupOf(b))
  {
    hide EdgesOf, LabelsOf, SourceOf, GroupOf, Connected, Cluster, Declares, Linked;
    var edges := EdgesOf(es);
    OwnCluster(es, a);
    ClusterIsComponent(es, b, a);
    EdgesIn(es, a);
    EdgeConnects(edges, SourceOf(a), GroupOf(a));
    ConnectedTransitive(edges, GroupOf(b), SourceOf(a), GroupOf(a));
    ConnectedSymmetric(edges, GroupOf(b), GroupOf(a));
    forall y ensures Connected(edges, GroupOf(a), y) <==> Connected(edges, GroupOf(b), y) {
      if Connected(edges, GroupOf(a), y) { ConnectedTransitive(edges, GroupOf(b), GroupOf(a), y); }
      if Connected(edges, GroupOf(b), y) { ConnectedTransitive(edges, GroupOf(a), GroupOf(b), y); }
    }
  }

  lemma OwnCluster(es: set<Evidence>, a: Evidence)
    requires a in es
    ensures a in Cluster(es, a)
  {
    assert Chains(es, [a], a, a);
  }

  /** Labels of one kind are as many as their texts. */
  lemma LabelsAreTexts(labels: set<Label>, texts: set<string>, kind: Kind)
    requires forall k | k in labels :: k.kind == kind
    requires forall t :: t in texts <==> Label(kind, t) in labels
    ensures |labels| == |texts|
  {
    var text := (k: Label) => k.value;
    ImageSize(text, labels);
    forall t ensures t in Image(text, labels) <==> t in texts {
      if t in texts { assert text(Label(kind, t)) == t; }
    }
    assert Image(text, labels) == texts;
  }

  lemma SourceTexts(evidence: seq<Evidence>)
    ensures |SourcesOf(SetOf(evidence))| == |set e | e in evidence && TrimSpace(e.source) != "" :: TrimSpace(e.source)|
  {
    hide TrimSpace;
    var es, texts := SetOf(evidence), set e | e in evidence && TrimSpace(e.source) != "" :: TrimSpace(e.source);
    forall t ensures t in texts <==> Label(Source, t) in SourcesOf(es) {
      if t in texts {
        var e :| e in evidence && TrimSpace(e.source) != "" && TrimSpace(e.source) == t;
        assert e in es && Attributed(e) && SourceOf(e) == Label(Source, t);
      }
    }
    LabelsAreTexts(SourcesOf(es), texts, Source);
  }

  lemma CauseTexts(evidence: seq<Evidence>)
    ensures |CausesOf(SetOf(evidence))| == |set e | e in evidence && TrimSpace(e.causalGroup) != "" :: TrimSpace(e.causalGroup)|
  {
    hide TrimSpace;
    var es, texts := SetOf(evidence), set e | e in evidence && TrimSpace(e.causalGroup) != "" :: TrimSpace(e.causalGroup);
    forall t ensures t in texts <==> Label(Cause, t) in CausesOf(es) {
      if t in texts {
        var e :| e in evidence && TrimSpace(e.causalGroup) != "" && TrimSpace(e.causalGroup) == t;
        assert e in es && HasCause(e) && CauseOf(e) == Label(Cause, t);
      }
    }
    LabelsAreTexts(CausesOf(es), texts, Cause);
  }

  lemma EpisodeTexts(evidence: seq<Evidence>)
    ensures EpisodesOf(SetOf(evidence)) == set e | e in evidence && TrimSpace(e.episodeId) != "" :: TrimSpace(e.episodeId)
  {
    hide TrimSpace;
    var es, texts := SetOf(evidence), set e | e in evidence && TrimSpace(e.episodeId) != "" :: TrimSpace(e.episodeId);
    forall t ensures t in texts <==> t in EpisodesOf(es) {
      if t in texts {
        var e :| e in evidence && TrimSpace(e.episodeId) != "" && TrimSpace(e.episodeId) == t;
        assert e in es && NamesEpisode(e) && Episode(e) == t;
      }
    }
  }

  lemma CountsOnFields(evidence: seq<Evidence>)
    ensures CountsFields(CountsOf(evidence), evidence)
  {
    hide TrimSpace, SourcesOf, CausesOf, EpisodesOf, Clusters, DeclaredComponents;
    ClustersAreComponents(SetOf(evidence));
    SourceTexts(evidence);
    CauseTexts(evidence);
    EpisodeTexts(evidence);
  }

  // ---------- Laws of the count ----------

  /** Order does not matter. */
  lemma PermutationInvariant(a: seq<Evidence>, b: seq<Evidence>)
    requires multiset(a) == multiset(b)
    ensures CountsOf(a) == CountsOf(b)
  {
    assert |multiset(a)| == |a| && |multiset(b)| == |b|;
    forall e ensures e in a <==> e in b {
      assert e in multiset(a) <==> e in multiset(b);
    }
    assert SetOf(a) == SetOf(b);
  }

  /** One more observation confirms at most one more independent group, its label joins at most
      one component for each group and cause it names, and without attribution it changes nothing. */
  lemma OneMoreObservation(es: set<Evidence>, e: Evidence)
    ensures |DeclaredComponents(es + {e})| <= |DeclaredComponents(es)| + if Declares(e) then 1 else 0
    ensures |DeclaredComponents(es)| <=
            |DeclaredComponents(es + {e})| + (if Declares(e) then 1 else 0) + (if NamesCause(e) then 1 else 0)
    ensures !Attributed(e) ==> DeclaredComponents(es + {e}) == DeclaredComponents(es)
  {
    hide Collected, GroupEdge, CauseEdge, SourceOf, GroupOf, CauseOf, Component, EdgesOf, LabelsOf, DeclaredOf;
    var more := es + {e};
    EdgesGrow(es, e);
    DeclaredAreLabels(es);
    WidenedComponents(es, more, if Declares(e) then {GroupOf(e)} else {});
    if Attributed(e) {
      TouchedLabels(es, e);
      TouchedSize(e);
      MergedComponents(es, more, Touched(e));
    } else {
      SameGraphSameComponents(es, more);
    }
  }

  /** The labels that an attributed observation joins. */
  ghost function Touched(e: Evidence): set<Label> {
    {SourceOf(e)} + (if Declares(e) then {GroupOf(e)} else {}) + (if NamesCause(e) then {CauseOf(e)} else {})
  }

  lemma TouchedLabels(es: set<Evidence>, e: Evidence)
    requires Attributed(e)
    ensures LabelsOf(es + {e}) == LabelsOf(es) + Touched(e)
    ensures forall edge | edge in EdgesOf(es + {e}) - EdgesOf(es) :: edge.0 in Touched(e) && edge.1 in Touched(e)
  {
    hide EdgesOf, LabelsOf, DeclaredOf, SourceOf, GroupOf, CauseOf;
    EdgesGrow(es, e);
  }

  lemma TouchedSize(e: Evidence)
    ensures |Touched(e)| <= 1 + (if Declares(e) then 1 else 0) + (if NamesCause(e) then 1 else 0)
  {
    hide SourceOf, GroupOf, CauseOf, Declares, NamesCause;
  }

  lemma DeclaredAreLabels(es: set<Evidence>)
    ensures DeclaredOf(es) <= LabelsOf(es)
  {
  }

  lemma ConnectedSymmetric(edges: set<Edge>, x: Label, y: Label)
    requires Connected(edges, x, y)
    ensures Connected(edges, y, x)
  {
    var p :| Connects(edges, p, x, y);
    var q := seq(|p|, i requires 0 <= i < |p| => p[|p| - 1 - i]);
    forall i | 0 <= i < |q| - 1 ensures Adjacent(edges, q[i], q[i + 1]) {
      assert Adjacent(edges, p[|p| - 2 - i], p[|p| - 2 - i + 1]);
    }
    assert Connects(edges, q, y, x);
  }

  /** Edges among labels that g does not reach leave its connections alone. */
  lemma NewEdgesOutOfReach(edges: set<Edge>, more: set<Edge>, touched: set<Label>, g: Label, y: Label)
    requires edges <= more && forall edge | edge in more - edges :: edge.0 in touched && edge.1 in touched
    requires forall t | t in touched :: !Connected(edges, g, t)
    ensures Connected(more, g, y) <==> Connected(edges, g, y)
  {
    if Connected(more, g, y) {
      var p :| Connects(more, p, g, y);
      forall edge | edge in more ensures Connected(edges, g, edge.0) == Connected(edges, g, edge.1) {
        if edge in edges { SameReach(edges, g, edge); }
      }
      ConnectedReflexive(edges, g);
      PathKeeps(more, x => Connected(edges, g, x), p);
    } else if Connected(edges, g, y) {
      ConnectedMonotone(edges, more, g, y);
    }
  }

  lemma SameReach(edges: set<Edge>, g: Label, edge: Edge)
    requires edge in edges
    ensures Connected(edges, g, edge.0) == Connected(edges, g, edge.1)
  {
    assert Connects(edges, [edge.0, edge.1], edge.0, edge.1) && Connects(edges, [edge.1, edge.0], edge.1, edge.0);
    if Connected(edges, g, edge.0) { ConnectedTransitive(edges, g, edge.0, edge.1); }
    if Connected(edges, g, edge.1) { ConnectedTransitive(edges, g, edge.1, edge.0); }
  }

  ghost predicate Reaches(es: set<Evidence>, g: Label, touched: set<Label>) {
    exists t :: t in touched && Connected(EdgesOf(es), g, t)
  }

  /** Of the components that hold touched labels at most one fewer than those labels can disappear. */
  lemma MergedComponents(es: set<Evidence>, more: set<Evidence>, touched: set<Label>)
    requires EdgesOf(es) <= EdgesOf(more) && LabelsOf(more) == LabelsOf(es) + touched && DeclaredOf(es) <= DeclaredOf(more)
    requires forall edge | edge in EdgesOf(more) - EdgesOf(es) :: edge.0 in touched && edge.1 in touched
    requires touched != {}
    ensures |DeclaredComponents(es)| <= |DeclaredComponents(more)| + |touched| - 1
  {
    hide EdgesOf, LabelsOf, DeclaredOf, Connected, Component, Reaches;
    var before, after := DeclaredComponents(es), DeclaredComponents(more);
    var hit := set g | g in DeclaredOf(es) && Reaches(es, g, touched) :: Component(es, g);
    var kept := set g | g in DeclaredOf(es) && !Reaches(es, g, touched) :: Component(es, g);
    assert before == hit + kept;
    var own := (t: Label) => Component(es, t);
    forall g | g in DeclaredOf(es) && Reaches(es, g, touched) ensures Component(es, g) in Image(own, touched) {
      ReachedComponent(es, g, touched);
    }
    ImageSize(own, touched);
    SubsetSize(hit, Image(own, touched));
    forall g | g in DeclaredOf(es) && !Reaches(es, g, touched) ensures Component(es, g) == Component(more, g) {
      UnreachedComponent(es, more, g, touched);
    }
    assert kept <= after;
    SubsetSize(kept, after);
    if hit != {} {
      var g :| g in DeclaredOf(es) && Reaches(es, g, touched);
      MergedIsNew(es, more, g, touched);
      assert Component(more, g) !in kept;
      SubsetSize(kept + {Component(more, g)}, after);
    }
  }

  lemma ReachedComponent(es: set<Evidence>, g: Label, touched: set<Label>)
    requires Reaches(es, g, touched)
    ensures exists t :: t in touched && Component(es, g) == Component(es, t)
  {
    hide EdgesOf, LabelsOf, Connected;
    var edges := EdgesOf(es);
    var t :| t in touched && Connected(edges, g, t);
    ConnectedSymmetric(edges, g, t);
    forall y ensures Connected(edges, g, y) <==> Connected(edges, t, y) {
      if Connected(edges, g, y) { ConnectedTransitive(edges, t, g, y); }
      if Connected(edges, t, y) { ConnectedTransitive(edges, g, t, y); }
    }
    assert Component(es, g) == Component(es, t);
  }

  lemma UnreachedComponent(es: set<Evidence>, more: set<Evidence>, g: Label, touched: set<Label>)
    requires EdgesOf(es) <= EdgesOf(more) && LabelsOf(more) == LabelsOf(es) + touched && !Reaches(es, g, touched)
    requires forall edge | edge in EdgesOf(more) - EdgesOf(es) :: edge.0 in touched && edge.1 in touched
    ensures Component(es, g) == Component(more, g)
  {
    hide EdgesOf, LabelsOf, Connected;
    forall y ensures Connected(EdgesOf(more), g, y) <==> Connected(EdgesOf(es), g, y) {
      NewEdgesOutOfReach(EdgesOf(es), EdgesOf(more), touched, g, y);
    }
  }

  /** The component that a touched label ends up in is none of those out of reach. */
  lemma MergedIsNew(es: set<Evidence>, more: set<Evidence>, g: Label, touched: set<Label>)
    requires EdgesOf(es) <= EdgesOf(more) && touched <= LabelsOf(more) && Reaches(es, g, touched)
    ensures forall h | !Reaches(es, h, touched) :: Component(more, g) != Component(es, h)
  {
    hide EdgesOf, LabelsOf, Connected;
    var t :| t in touched && Connected(EdgesOf(es), g, t);
    ConnectedMonotone(EdgesOf(es), EdgesOf(more), g, t);
    assert t in Component(more, g);
  }

  lemma SameGraphSameComponents(es: set<Evidence>, more: set<Evidence>)
    requires EdgesOf(more) == EdgesOf(es) && LabelsOf(more) == LabelsOf(es) && DeclaredOf(more) == DeclaredOf(es)
    ensures DeclaredComponents(more) == DeclaredComponents(es)
  {
    hide EdgesOf, LabelsOf, DeclaredOf, Connected;
    forall g ensures Component(more, g) == Component(es, g) {}
  }

  /** Old components map onto the new ones that hold an old declared group. */
  lemma WidenedComponents(es: set<Evidence>, more: set<Evidence>, added: set<Label>)
    requires EdgesOf(es) <= EdgesOf(more) && LabelsOf(es) <= LabelsOf(more)
    requires DeclaredOf(more) == DeclaredOf(es) + added && DeclaredOf(es) <= LabelsOf(es)
    ensures |DeclaredComponents(more)| <= |DeclaredComponents(es)| + |added|
  {
    hide EdgesOf, LabelsOf, DeclaredOf, Component;
    var before := DeclaredComponents(es);
    var widen := (c: set<Label>) => Widened(c, more);
    var own := (g: Label) => Component(more, g);
    forall c | c in DeclaredComponents(more) ensures c in Image(widen, before) + Image(own, added) {
      var g :| g in DeclaredOf(more) && c == Component(more, g);
      if g in DeclaredOf(es) {
        WidenedComponent(es, more, g);
        assert Component(es, g) in before;
      }
    }
    SubsetSize(DeclaredComponents(more), Image(widen, before) + Image(own, added));
    ImageSize(widen, before);
    ImageSize(own, added);
  }

  ghost function Widened(c: set<Label>, es: set<Evidence>): set<Label> {
    set x, y | x in c && y in LabelsOf(es) && Connected(EdgesOf(es), x, y) :: y
  }

  lemma WidenedComponent(es: set<Evidence>, more: set<Evidence>, g: Label)
    requires EdgesOf(es) <= EdgesOf(more) && g in LabelsOf(es)
    ensures Widened(Component(es, g), more) == Component(more, g)
  {
    hide EdgesOf, LabelsOf, Connected;
    ConnectedReflexive(EdgesOf(es), g);
    forall x, y | x in Component(es, g) && Connected(EdgesOf(more), x, y) ensures Connected(EdgesOf(more), g, y) {
      ConnectedMonotone(EdgesOf(es), EdgesOf(more), g, x);
      ConnectedTransitive(EdgesOf(more), g, x, y);
    }
  }
}
