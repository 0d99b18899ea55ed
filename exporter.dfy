/**
 * The exporter's reference bookkeeping: before an export writes any
 * object, it walks every value cell the flattened objects refer to and
 * counts how often each is reached. Cells reached more than once, and
 * every group, receive ids from one shared counter, so that the export
 * can write "#id" references instead of copies.
 */
module Exporting {
  import opened Wrappers
  import opened Text
  import opened Values
  import opened Cells
  import opened Groups
  import Prototypes
  import Scenes
  import Store

  /** `Counter`: the id a cell drew when it was first reached, and how often it was reached again. */
  datatype Counter = Counter(id: int, usage: int)

  /**
   * `Dict`: the ids of the exported cells and of the groups, the names of
   * the system values, and the counter that every id is drawn from.
   */
  datatype Dict = Dict(valueWrapper: map<CellId, int>, groups: map<GroupId, int>,
                       systemValues: map<CellId, string>, counter: int)

  /** A new `Dict`: nothing numbered yet, the counter at 0. */
  function NewDict(systemValues: map<CellId, string>): (d: Dict)
    ensures d.valueWrapper == map[] && d.groups == map[] && d.counter == 0 && d.systemValues == systemValues
  {
    Dict(map[], map[], systemValues, 0)
  }

  /** `RemoteSource` as the interface reads it: expression nodes always answer null. */
  function Remote(x: Cell): Option<CellId>
  {
    if x.Typed() then x.remote else None
  }

  /** `rank` decreases along every remote source, so walking a chain ends. */
  ghost predicate Chained(cells: seq<Cell>, rank: seq<nat>)
  {
    && |rank| == |cells|
    && forall i :: 0 <= i < |cells| && Remote(cells[i]).Some? ==>
         Remote(cells[i]).value < |cells| && rank[Remote(cells[i]).value] < rank[i]
  }

  lemma RemoteRank(cells: seq<Cell>, rank: seq<nat>, i: CellId)
    requires Chained(cells, rank) && i < |cells| && Remote(cells[i]).Some?
    ensures Remote(cells[i]).value < |cells| && rank[Remote(cells[i]).value] < rank[i]
  {
  }

  /** A cell followed by its remote sources, to the first cell that has none. */
  ghost function Chain(cells: seq<Cell>, rank: seq<nat>, p: CellId): (r: seq<CellId>)
    requires Chained(cells, rank) && p < |cells|
    ensures |r| > 0 && r[0] == p
    decreases rank[p]
  {
    match Remote(cells[p])
    case None => [p]
    case Some(q) => RemoteRank(cells, rank, p); [p] + Chain(cells, rank, q)
  }

  // ----- Reaching a cell -----

  /**
   * One sight of cell `p` outside the system values: a cell not seen
   * before draws the next id with no usage yet; a known one counts one
   * more usage. System values are skipped.
   */
  function Sight(search: map<CellId, Counter>, d: Dict, p: CellId): (r: (map<CellId, Counter>, Dict))
    ensures r.1.valueWrapper == d.valueWrapper && r.1.groups == d.groups && r.1.systemValues == d.systemValues
    ensures r.0.Keys == search.Keys + (if p in d.systemValues then {} else {p})
  {
    if p in d.systemValues then (search, d)
    else if p in search then (search[p := search[p].(usage := search[p].usage + 1)], d)
    else (search[p := Counter(d.counter, 0)], d.(counter := d.counter + 1))
  }

  /** Sights of each cell of `ps` in turn. */
  function SightAll(search: map<CellId, Counter>, d: Dict, ps: seq<CellId>): (r: (map<CellId, Counter>, Dict))
    decreases |ps|
  {
    if |ps| == 0 then (search, d)
    else
      var s := Sight(search, d, ps[0]);
      SightAll(s.0, s.1, ps[1..])
  }

  /** The loop of `LookupParam`: a sight of the cell and of each of its remote sources. */
  ghost function Walk(cells: seq<Cell>, rank: seq<nat>, search: map<CellId, Counter>, d: Dict, p: CellId)
    : (r: (map<CellId, Counter>, Dict))
    requires Chained(cells, rank) && p < |cells|
    decreases rank[p]
  {
    var s := Sight(search, d, p);
    match Remote(cells[p])
    case None => s
    case Some(q) => RemoteRank(cells, rank, p); Walk(cells, rank, s.0, s.1, q)
  }

  /** Walking a chain is sighting the cells of the chain in order. */
  lemma {:induction false} WalkSightsChain(cells: seq<Cell>, rank: seq<nat>, search: map<CellId, Counter>, d: Dict, p: CellId)
    requires Chained(cells, rank) && p < |cells|
    ensures Walk(cells, rank, search, d, p) == SightAll(search, d, Chain(cells, rank, p))
    decreases rank[p]
  {
    var s := Sight(search, d, p);
    var ch := Chain(cells, rank, p);
    match Remote(cells[p])
    case None =>
      assert ch == [p];
      assert SightAll(s.0, s.1, ch[1..]) == s;
    case Some(q) =>
      RemoteRank(cells, rank, p);
      WalkSightsChain(cells, rank, s.0, s.1, q);
      assert ch[1..] == Chain(cells, rank, q);
  }

  /**
   * First sight and later sights: after sighting the cells of `ps`, a
   * cell outside the system values that was known has gained one usage per
   * occurrence, and one that was new is known with one usage fewer than
   * its occurrences; a system value is never recorded.
   */
  lemma {:induction false} SightAllUsage(search: map<CellId, Counter>, d: Dict, ps: seq<CellId>, c: CellId)
    ensures var r := SightAll(search, d, ps);
      && r.1.systemValues == d.systemValues && r.1.groups == d.groups && r.1.valueWrapper == d.valueWrapper
      && (c in r.0 <==> c in search || (c in ps && c !in d.systemValues))
      && (c in search ==> r.0[c] == Counter(search[c].id, search[c].usage + (if c in d.systemValues then 0 else multiset(ps)[c])))
      && (c !in search && c in ps && c !in d.systemValues ==> r.0[c].usage == multiset(ps)[c] - 1)
    decreases |ps|
  {
    if |ps| > 0 {
      var s := Sight(search, d, ps[0]);
      SightAllUsage(s.0, s.1, ps[1..], c);
      assert ps == [ps[0]] + ps[1..];
      assert multiset(ps)[c] == (if ps[0] == c then 1 else 0) + multiset(ps[1..])[c];
    }
  }

  // ----- One counter for every id -----

  /**
   * Every id drawn so far is below the counter, and no two cells, no two
   * groups, and no cell and group share one.
   */
  ghost predicate Numbered(search: map<CellId, Counter>, d: Dict)
  {
    && 0 <= d.counter
    && (forall c :: c in search ==> 0 <= search[c].id < d.counter)
    && (forall g :: g in d.groups ==> 0 <= d.groups[g] < d.counter)
    && (forall c, c' :: c in search && c' in search && c != c' ==> search[c].id != search[c'].id)
    && (forall g, g' :: g in d.groups && g' in d.groups && g != g' ==> d.groups[g] != d.groups[g'])
    && (forall c, g :: c in search && g in d.groups ==> search[c].id != d.groups[g])
  }

  /** What a later state keeps of an earlier one: every id, the system values, and a counter no lower. */
  ghost predicate Keeps(search: map<CellId, Counter>, d: Dict, search': map<CellId, Counter>, d': Dict)
  {
    && d'.systemValues == d.systemValues && d'.valueWrapper == d.valueWrapper && d.counter <= d'.counter
    && (forall c :: c in search ==> c in search' && search'[c].id == search[c].id)
    && (forall g :: g in d.groups ==> g in d'.groups && d'.groups[g] == d.groups[g])
  }

  /** Everything recorded since the earlier state drew its id after that state's counter. */
  ghost predicate DrawnSince(search: map<CellId, Counter>, d: Dict, search': map<CellId, Counter>, d': Dict)
  {
    && (forall c :: c in search' && c !in search ==> d.counter <= search'[c].id < d'.counter)
    && (forall g :: g in d'.groups && g !in d.groups ==> d.counter <= d'.groups[g] < d'.counter)
  }

  lemma KeepsTransitive(s0: map<CellId, Counter>, d0: Dict, s1: map<CellId, Counter>, d1: Dict,
                        s2: map<CellId, Counter>, d2: Dict)
    requires Keeps(s0, d0, s1, d1) && Keeps(s1, d1, s2, d2)
    ensures Keeps(s0, d0, s2, d2)
  {
  }

  lemma DrawnTransitive(s0: map<CellId, Counter>, d0: Dict, s1: map<CellId, Counter>, d1: Dict,
                        s2: map<CellId, Counter>, d2: Dict)
    requires Keeps(s0, d0, s1, d1) && Keeps(s1, d1, s2, d2)
    requires DrawnSince(s0, d0, s1, d1) && DrawnSince(s1, d1, s2, d2)
    ensures DrawnSince(s0, d0, s2, d2)
  {
  }

  /** A sight keeps the ids apart. */
  lemma SightNumbered(search: map<CellId, Counter>, d: Dict, p: CellId)
    requires Numbered(search, d)
    ensures var r := Sight(search, d, p);
      Numbered(r.0, r.1) && Keeps(search, d, r.0, r.1) && DrawnSince(search, d, r.0, r.1)
  {
    if p in d.systemValues {
      SameIdsNumbered(search, d, search);
    } else if p in search {
      SeenAgainNumbered(search, d, p);
    } else {
      SeenFirstNumbered(search, d, p);
    }
  }

  lemma SeenAgainNumbered(search: map<CellId, Counter>, d: Dict, p: CellId)
    requires Numbered(search, d) && p !in d.systemValues && p in search
    ensures var r := Sight(search, d, p);
      Numbered(r.0, r.1) && Keeps(search, d, r.0, r.1) && DrawnSince(search, d, r.0, r.1)
  {
    var s' := search[p := search[p].(usage := search[p].usage + 1)];
    assert forall c :: c in s' ==> s'[c].id == search[c].id;
    SameIdsNumbered(search, d, s');
  }

  lemma SeenFirstNumbered(search: map<CellId, Counter>, d: Dict, p: CellId)
    requires Numbered(search, d) && p !in d.systemValues && p !in search
    ensures var r := Sight(search, d, p);
      Numbered(r.0, r.1) && Keeps(search, d, r.0, r.1) && DrawnSince(search, d, r.0, r.1)
  {
    NewIdNumbered(search, d, p);
  }

  /** Changing only usages keeps the ids apart. */
  lemma SameIdsNumbered(search: map<CellId, Counter>, d: Dict, s': map<CellId, Counter>)
    requires Numbered(search, d)
    requires s'.Keys == search.Keys && forall c :: c in s' ==> s'[c].id == search[c].id
    ensures Numbered(s', d) && Keeps(search, d, s', d) && DrawnSince(search, d, s', d)
  {
    forall c, c' | c in s' && c' in s' && c != c'
      ensures s'[c].id != s'[c'].id
    {
      assert search[c].id != search[c'].id;
    }
  }

  /** Recording `p` with the counter's value, then moving the counter on, keeps the ids apart. */
  lemma NewIdNumbered(search: map<CellId, Counter>, d: Dict, p: CellId)
    requires Numbered(search, d) && p !in search
    ensures var s', d' := search[p := Counter(d.counter, 0)], d.(counter := d.counter + 1);
      Numbered(s', d') && Keeps(search, d, s', d') && DrawnSince(search, d, s', d')
  {
    var s', d' := search[p := Counter(d.counter, 0)], d.(counter := d.counter + 1);
    forall c | c in s'
      ensures 0 <= s'[c].id < d'.counter
    {
      if c != p {
        assert 0 <= search[c].id < d.counter;
      }
    }
    forall c, c' | c in s' && c' in s' && c != c'
      ensures s'[c].id != s'[c'].id
    {
      if c != p && c' != p {
        assert search[c].id != search[c'].id;
      } else if c != p {
        assert search[c].id < d.counter;
      } else {
        assert search[c'].id < d.counter;
      }
    }
    forall c, g | c in s' && g in d'.groups
      ensures s'[c].id != d'.groups[g]
    {
      if c != p {
        assert search[c].id != d.groups[g];
      } else {
        assert d.groups[g] < d.counter;
      }
    }
  }

  lemma {:induction false} WalkNumbered(cells: seq<Cell>, rank: seq<nat>, search: map<CellId, Counter>, d: Dict, p: CellId)
    requires Chained(cells, rank) && p < |cells| && Numbered(search, d)
    ensures var r := Walk(cells, rank, search, d, p);
      Numbered(r.0, r.1) && Keeps(search, d, r.0, r.1) && DrawnSince(search, d, r.0, r.1)
    decreases rank[p]
  {
    var s := Sight(search, d, p);
    SightNumbered(search, d, p);
    match Remote(cells[p])
    case None =>
    case Some(q) =>
      RemoteRank(cells, rank, p);
      WalkNumbered(cells, rank, s.0, s.1, q);
      var r := Walk(cells, rank, s.0, s.1, q);
      KeepsTransitive(search, d, s.0, s.1, r.0, r.1);
      DrawnTransitive(search, d, s.0, s.1, r.0, r.1);
  }

  /** Numbering a new group draws the next id. */
  function AddGroup(d: Dict, g: GroupId): (r: Result<Dict>)
    ensures r.Fail? <==> g in d.groups
    ensures r.Fail? ==> r.fault == Argument
  {
    if g in d.groups then Fail(Argument) else Ok(d.(groups := d.groups[g := d.counter], counter := d.counter + 1))
  }

  lemma AddGroupNumbered(search: map<CellId, Counter>, d: Dict, g: GroupId)
    requires Numbered(search, d) && g !in d.groups
    ensures var r := AddGroup(d, g).value;
      Numbered(search, r) && Keeps(search, d, search, r) && DrawnSince(search, d, search, r) && g in r.groups
  {
    var r := AddGroup(d, g).value;
    assert forall h :: h in r.groups ==> r.groups[h] == if h == g then d.counter else d.groups[h];
    forall h, h' | h in r.groups && h' in r.groups && h != h'
      ensures r.groups[h] != r.groups[h']
    {
      if h != g && h' != g {
        assert d.groups[h] != d.groups[h'];
      }
    }
  }

  // ----- Math expressions -----

  /** The cells an expression node reads, as a sequence. */
  function Operands(x: Cell): seq<CellId>
    requires x.IsNode()
  {
    x.ReadRefs()
  }

  /** Counting one more usage of a cell that is already known; an unknown one is left out. */
  function Bump(search: map<CellId, Counter>, p: CellId): (r: map<CellId, Counter>)
    ensures r.Keys == search.Keys
  {
    if p in search then search[p := search[p].(usage := search[p].usage + 1)] else search
  }

  /** The loop of `LookupMathParam` over a cell and its remote sources. */
  ghost function BumpChain(cells: seq<Cell>, rank: seq<nat>, search: map<CellId, Counter>, p: CellId)
    : (r: map<CellId, Counter>)
    requires Chained(cells, rank) && p < |cells|
    decreases rank[p]
  {
    var s := Bump(search, p);
    match Remote(cells[p])
    case None => s
    case Some(q) => RemoteRank(cells, rank, p); BumpChain(cells, rank, s, q)
  }

  /** Only usages change, and none decreases. */
  ghost predicate Bumped(search: map<CellId, Counter>, r: map<CellId, Counter>)
  {
    && r.Keys == search.Keys
    && forall c :: c in search ==> r[c].id == search[c].id && search[c].usage <= r[c].usage
  }

  /**
   * `LookupMathParam`: the operands of a calculation, condition or
   * comparison in order, and any other cell with its remote sources, count
   * one more usage where they are already known.
   */
  ghost function MathSeen(cells: seq<Cell>, rank: seq<nat>, search: map<CellId, Counter>, p: CellId)
    : (r: map<CellId, Counter>)
    requires Ranked(cells, rank) && Chained(cells, rank) && p < |cells|
    decreases rank[p], 1
  {
    if cells[p].IsNode() then MathSeenOps(cells, rank, search, p, |Operands(cells[p])|)
    else BumpChain(cells, rank, search, p)
  }

  /** The first `k` operands of node `p`, in order. */
  ghost function MathSeenOps(cells: seq<Cell>, rank: seq<nat>, search: map<CellId, Counter>, p: CellId, k: nat)
    : (r: map<CellId, Counter>)
    requires Ranked(cells, rank) && Chained(cells, rank) && p < |cells| && cells[p].IsNode()
    requires k <= |Operands(cells[p])|
    decreases rank[p], 0, k
  {
    if k == 0 then search
    else
      var op := Operands(cells[p])[k - 1];
      RefRank(cells, rank, p, op);
      MathSeen(cells, rank, MathSeenOps(cells, rank, search, p, k - 1), op)
  }

  lemma {:induction false} BumpChainBumps(cells: seq<Cell>, rank: seq<nat>, search: map<CellId, Counter>, p: CellId)
    requires Chained(cells, rank) && p < |cells|
    ensures Bumped(search, BumpChain(cells, rank, search, p))
    decreases rank[p]
  {
    match Remote(cells[p])
    case None =>
    case Some(q) =>
      RemoteRank(cells, rank, p);
      BumpChainBumps(cells, rank, Bump(search, p), q);
  }

  /** `LookupMathParam` never draws an id: it only counts usages of cells already known. */
  lemma {:induction false} MathSeenBumps(cells: seq<Cell>, rank: seq<nat>, search: map<CellId, Counter>, p: CellId)
    requires Ranked(cells, rank) && Chained(cells, rank) && p < |cells|
    ensures Bumped(search, MathSeen(cells, rank, search, p))
    decreases rank[p], 1
  {
    if cells[p].IsNode() {
      MathSeenOpsBumps(cells, rank, search, p, |Operands(cells[p])|);
    } else {
      BumpChainBumps(cells, rank, search, p);
    }
  }

  lemma {:induction false} MathSeenOpsBumps(cells: seq<Cell>, rank: seq<nat>, search: map<CellId, Counter>, p: CellId, k: nat)
    requires Ranked(cells, rank) && Chained(cells, rank) && p < |cells| && cells[p].IsNode()
    requires k <= |Operands(cells[p])|
    ensures Bumped(search, MathSeenOps(cells, rank, search, p, k))
    decreases rank[p], 0, k
  {
    if k > 0 {
      var op := Operands(cells[p])[k - 1];
      RefRank(cells, rank, p, op);
      var mid := MathSeenOps(cells, rank, search, p, k - 1);
      MathSeenOpsBumps(cells, rank, search, p, k - 1);
      MathSeenBumps(cells, rank, mid, op);
    }
  }

  /** Counting usages keeps the ids apart and keeps every id. */
  lemma BumpedNumbered(search: map<CellId, Counter>, r: map<CellId, Counter>, d: Dict)
    requires Numbered(search, d) && Bumped(search, r)
    ensures Numbered(r, d) && Keeps(search, d, r, d) && DrawnSince(search, d, r, d)
  {
    SameIdsNumbered(search, d, r);
  }

  /** `LookupMathParam`, proved to do what `MathSeen` says. */
  method LookupMathParam(cells: seq<Cell>, ghost rank: seq<nat>, search: map<CellId, Counter>, p: CellId)
    returns (r: map<CellId, Counter>)
    requires Ranked(cells, rank) && Chained(cells, rank) && p < |cells|
    ensures r == MathSeen(cells, rank, search, p)
    decreases rank[p]
  {
    if cells[p].IsNode() {
      var ops := Operands(cells[p]);
      r := search;
      var i := 0;
      while i < |ops|
        invariant 0 <= i <= |ops|
        invariant r == MathSeenOps(cells, rank, search, p, i)
      {
        RefRank(cells, rank, p, ops[i]);
        r := LookupMathParam(cells, rank, r, ops[i]);
        i := i + 1;
      }
    } else {
      r := search;
      var q: Option<CellId> := Some(p);
      while q.Some?
        invariant q.Some? ==> q.value < |cells|
        invariant (if q.Some? then BumpChain(cells, rank, r, q.value) else r) == BumpChain(cells, rank, search, p)
        decreases if q.Some? then rank[q.value] + 1 else 0
      {
        var c := q.value;
        if c in r {
          r := r[c := r[c].(usage := r[c].usage + 1)];
        }
        q := Remote(cells[c]);
        if q.Some? {
          RemoteRank(cells, rank, c);
        }
      }
    }
  }

  // ----- Looking up a parameter -----

  /** A cell named "Math" that has no `ValueSource` for the reflective lookup to read. */
  predicate BadMath(x: Cell)
  {
    x.name == "Math" && !x.MathValue?
  }

  /**
   * `LookupParam`: a math value (a cell named "Math") first counts the
   * usages inside its expression; then the cell and its remote sources are
   * sighted. Any other cell named "Math" fails on the reflective lookup.
   */
  ghost function ParamSeen(cells: seq<Cell>, rank: seq<nat>, search: map<CellId, Counter>, d: Dict, p: CellId)
    : (r: Result<(map<CellId, Counter>, Dict)>)
    requires Ranked(cells, rank) && Chained(cells, rank) && p < |cells|
  {
    if BadMath(cells[p]) then Fail(NullReference)
    else Ok(Walk(cells, rank, MathPart(cells, rank, search, p), d, p))
  }

  /** The usages a lookup of `p` counts before its walk: those inside a math value's expression. */
  ghost function MathPart(cells: seq<Cell>, rank: seq<nat>, search: map<CellId, Counter>, p: CellId)
    : (r: map<CellId, Counter>)
    requires Ranked(cells, rank) && Chained(cells, rank) && p < |cells| && !BadMath(cells[p])
    ensures Bumped(search, r)
    ensures cells[p].name != "Math" ==> r == search
  {
    if cells[p].name == "Math" then
      RefRank(cells, rank, p, cells[p].source);
      MathSeenBumps(cells, rank, search, cells[p].source);
      MathSeen(cells, rank, search, cells[p].source)
    else search
  }

  /** `LookupParam`, proved to do what `ParamSeen` says. */
  method LookupParam(cells: seq<Cell>, ghost rank: seq<nat>, search: map<CellId, Counter>, d: Dict, p: CellId)
    returns (r: Result<(map<CellId, Counter>, Dict)>)
    requires Ranked(cells, rank) && Chained(cells, rank) && p < |cells|
    ensures r == ParamSeen(cells, rank, search, d, p)
  {
    var s: map<CellId, Counter> := search;
    if cells[p].name == "Math" {
      if !cells[p].MathValue? {
        return Fail(NullReference);
      }
      RefRank(cells, rank, p, cells[p].source);
      s := LookupMathParam(cells, rank, search, cells[p].source);
    }
    ghost var s0 := s;
    var dd := d;
    var q: Option<CellId> := Some(p);
    while q.Some?
      invariant q.Some? ==> q.value < |cells|
      invariant (if q.Some? then Walk(cells, rank, s, dd, q.value) else (s, dd)) == Walk(cells, rank, s0, d, p)
      decreases if q.Some? then rank[q.value] + 1 else 0
    {
      var c := q.value;
      if c !in dd.systemValues {
        if c !in s {
          s := s[c := Counter(dd.counter, 0)];
          dd := dd.(counter := dd.counter + 1);
        } else {
          s := s[c := s[c].(usage := s[c].usage + 1)];
        }
      }
      q := Remote(cells[c]);
      if q.Some? {
        RemoteRank(cells, rank, c);
      }
    }
    r := Ok((s, dd));
  }

  /**
   * A parameter lookup fails exactly on a cell named "Math" that is no math
   * value; otherwise it keeps the ids apart and draws ids only for new
   * cells.
   */
  lemma ParamSeenNumbered(cells: seq<Cell>, rank: seq<nat>, search: map<CellId, Counter>, d: Dict, p: CellId)
    requires Ranked(cells, rank) && Chained(cells, rank) && p < |cells| && Numbered(search, d)
    ensures var r := ParamSeen(cells, rank, search, d, p);
      && (r.Ok? <==> !BadMath(cells[p]))
      && (r.Ok? ==> Numbered(r.value.0, r.value.1) && Keeps(search, d, r.value.0, r.value.1)
                    && DrawnSince(search, d, r.value.0, r.value.1))
  {
    if !BadMath(cells[p]) {
      var s := MathPart(cells, rank, search, p);
      BumpedNumbered(search, s, d);
      WalkNumbered(cells, rank, s, d, p);
      var w := Walk(cells, rank, s, d, p);
      KeepsTransitive(search, d, s, d, w.0, w.1);
      DrawnTransitive(search, d, s, d, w.0, w.1);
      assert ParamSeen(cells, rank, search, d, p) == Ok(w);
    }
  }

  /**
   * After a parameter lookup, the cells known are those known before and
   * those of the remote chain outside the system values; the groups and
   * the system values are left alone.
   */
  lemma ParamSeenKnows(cells: seq<Cell>, rank: seq<nat>, search: map<CellId, Counter>, d: Dict, p: CellId)
    requires Ranked(cells, rank) && Chained(cells, rank) && p < |cells| && !BadMath(cells[p])
    ensures var r := ParamSeen(cells, rank, search, d, p).value;
      && r.1.groups == d.groups && r.1.systemValues == d.systemValues
      && forall c :: c in r.0 <==> c in search || (c in Chain(cells, rank, p) && c !in d.systemValues)
  {
    var s := MathPart(cells, rank, search, p);
    WalkSightsChain(cells, rank, s, d, p);
    SightAllUsage(s, d, Chain(cells, rank, p), p);
    forall c
      ensures (c in Walk(cells, rank, s, d, p).0 <==> c in search || (c in Chain(cells, rank, p) && c !in d.systemValues))
    {
      SightAllUsage(s, d, Chain(cells, rank, p), c);
    }
  }

  /**
   * Outside math values, each sight of a cell on the chain counts: a cell
   * known before gains one usage per sight, one first reached has its id and
   * one usage fewer than its sights.
   */
  lemma ParamSeenUsage(cells: seq<Cell>, rank: seq<nat>, search: map<CellId, Counter>, d: Dict, p: CellId, c: CellId)
    requires Ranked(cells, rank) && Chained(cells, rank) && p < |cells|
    requires cells[p].name != "Math" && c !in d.systemValues
    ensures var r := ParamSeen(cells, rank, search, d, p).value.0;
      var n := multiset(Chain(cells, rank, p))[c];
      && (c in search ==> c in r && r[c] == Counter(search[c].id, search[c].usage + n))
      && (c !in search && n > 0 ==> c in r && r[c].usage == n - 1)
  {
    assert !BadMath(cells[p]);
    WalkSightsChain(cells, rank, search, d, p);
    SightAllUsage(search, d, Chain(cells, rank, p), c);
  }

  // ----- Steps -----

  /** Every cell of `ps` lies in the store. */
  predicate AllIn(ps: seq<CellId>, n: nat)
  {
    forall i :: 0 <= i < |ps| ==> ps[i] < n
  }

  /** One step of `CreateLookup`: looking a cell up with `LookupParam`, or numbering a group. */
  datatype Step = See(cell: CellId) | Number(group: GroupId)

  /** The cells a list of steps looks up, in order. */
  function CellsOf(steps: seq<Step>): seq<CellId>
    decreases |steps|
  {
    if |steps| == 0 then []
    else if steps[0].See? then [steps[0].cell] + CellsOf(steps[1..])
    else CellsOf(steps[1..])
  }

  /** The groups a list of steps numbers, in order. */
  function GroupsOf(steps: seq<Step>): seq<GroupId>
    decreases |steps|
  {
    if |steps| == 0 then []
    else if steps[0].Number? then [steps[0].group] + GroupsOf(steps[1..])
    else GroupsOf(steps[1..])
  }

  lemma {:induction false} CellsAppend(a: seq<Step>, b: seq<Step>)
    ensures CellsOf(a + b) == CellsOf(a) + CellsOf(b)
    decreases |a|
  {
    if |a| == 0 {
      assert a + b == b;
    } else {
      assert (a + b)[1..] == a[1..] + b;
      CellsAppend(a[1..], b);
    }
  }

  lemma {:induction false} GroupsAppend(a: seq<Step>, b: seq<Step>)
    ensures GroupsOf(a + b) == GroupsOf(a) + GroupsOf(b)
    decreases |a|
  {
    if |a| == 0 {
      assert a + b == b;
    } else {
      assert (a + b)[1..] == a[1..] + b;
      GroupsAppend(a[1..], b);
    }
  }

  lemma StepsAppend(a: seq<Step>, b: seq<Step>)
    ensures CellsOf(a + b) == CellsOf(a) + CellsOf(b) && GroupsOf(a + b) == GroupsOf(a) + GroupsOf(b)
  {
    CellsAppend(a, b);
    GroupsAppend(a, b);
  }

  lemma AllInAppend(a: seq<CellId>, b: seq<CellId>, n: nat)
    ensures AllIn(a + b, n) <==> AllIn(a, n) && AllIn(b, n)
  {
    assert forall i :: 0 <= i < |a| ==> a[i] == (a + b)[i];
    assert forall i :: 0 <= i < |b| ==> b[i] == (a + b)[|a| + i];
    assert forall i :: |a| <= i < |a + b| ==> (a + b)[i] == b[i - |a|];
  }

  /** The cells and groups a single step contributes. */
  function StepCells(s: Step): seq<CellId>
  {
    if s.See? then [s.cell] else []
  }

  function StepGroups(s: Step): seq<GroupId>
  {
    if s.Number? then [s.group] else []
  }

  lemma StepHead(steps: seq<Step>, n: nat)
    requires |steps| > 0
    ensures CellsOf(steps) == StepCells(steps[0]) + CellsOf(steps[1..])
    ensures GroupsOf(steps) == StepGroups(steps[0]) + GroupsOf(steps[1..])
    ensures AllIn(CellsOf(steps), n) <==> (steps[0].See? ==> steps[0].cell < n) && AllIn(CellsOf(steps[1..]), n)
  {
    AllInAppend(StepCells(steps[0]), CellsOf(steps[1..]), n);
  }

  /**
   * One step: a parameter lookup, or `d.Groups.Add(group, d.Counter++)`,
   * which throws on a group numbered before. A lookup is defined on a
   * well-formed store only; outside one it counts as a null reference.
   */
  ghost function Do(cells: seq<Cell>, rank: seq<nat>, s: Step, search: map<CellId, Counter>, d: Dict)
    : Result<(map<CellId, Counter>, Dict)>
  {
    match s
    case See(c) =>
      if Ranked(cells, rank) && Chained(cells, rank) && c < |cells| then ParamSeen(cells, rank, search, d, c)
      else Fail(NullReference)
    case Number(g) =>
      match AddGroup(d, g)
      case Fail(e) => Fail(e)
      case Ok(a) => Ok((search, a))
  }

  /** Steps in turn, stopping at the first that fails. */
  ghost function Run(cells: seq<Cell>, rank: seq<nat>, steps: seq<Step>, search: map<CellId, Counter>, d: Dict)
    : Result<(map<CellId, Counter>, Dict)>
    decreases |steps|
  {
    if |steps| == 0 then Ok((search, d))
    else
      match Do(cells, rank, steps[0], search, d)
      case Fail(e) => Fail(e)
      case Ok(x) => Run(cells, rank, steps[1..], x.0, x.1)
  }

  /** Running two lists of steps one after the other is running their concatenation. */
  lemma {:induction false} RunAppend(cells: seq<Cell>, rank: seq<nat>, a: seq<Step>, b: seq<Step>,
                                     search: map<CellId, Counter>, d: Dict)
    ensures Run(cells, rank, a + b, search, d) ==
      match Run(cells, rank, a, search, d)
      case Fail(e) => Fail(e)
      case Ok(x) => Run(cells, rank, b, x.0, x.1)
    decreases |a|
  {
    if |a| == 0 {
      assert a + b == b;
    } else {
      assert (a + b)[1..] == a[1..] + b;
      assert (a + b)[0] == a[0];
      var x := Do(cells, rank, a[0], search, d);
      if x.Ok? {
        RunAppend(cells, rank, a[1..], b, x.value.0, x.value.1);
      }
    }
  }

  /** Running steps keeps the ids apart. */
  lemma {:induction false} RunNumbered(cells: seq<Cell>, rank: seq<nat>, steps: seq<Step>, search: map<CellId, Counter>, d: Dict)
    requires Ranked(cells, rank) && Chained(cells, rank) && AllIn(CellsOf(steps), |cells|) && Numbered(search, d)
    ensures var r := Run(cells, rank, steps, search, d);
      r.Ok? ==> Numbered(r.value.0, r.value.1) && Keeps(search, d, r.value.0, r.value.1)
                && DrawnSince(search, d, r.value.0, r.value.1)
    decreases |steps|
  {
    if |steps| > 0 {
      StepHead(steps, |cells|);
      var x := Do(cells, rank, steps[0], search, d);
      if x.Ok? {
        if steps[0].See? {
          ParamSeenNumbered(cells, rank, search, d, steps[0].cell);
        } else {
          AddGroupNumbered(search, d, steps[0].group);
        }
        RunNumbered(cells, rank, steps[1..], x.value.0, x.value.1);
        var r := Run(cells, rank, steps[1..], x.value.0, x.value.1);
        if r.Ok? {
          KeepsTransitive(search, d, x.value.0, x.value.1, r.value.0, r.value.1);
          DrawnTransitive(search, d, x.value.0, x.value.1, r.value.0, r.value.1);
        }
      }
    }
  }

  /** No cell of `ps` is a cell named "Math" that is no math value. */
  ghost predicate CleanList(cells: seq<Cell>, ps: seq<CellId>)
  {
    forall i :: 0 <= i < |ps| && ps[i] < |cells| ==> !BadMath(cells[ps[i]])
  }

  /** Every cell of `ps` outside the system values is known. */
  ghost predicate KnownList(search: map<CellId, Counter>, systemValues: map<CellId, string>, ps: seq<CellId>)
  {
    forall i :: 0 <= i < |ps| && ps[i] !in systemValues ==> ps[i] in search
  }

  lemma CleanAppend(cells: seq<Cell>, a: seq<CellId>, b: seq<CellId>)
    ensures CleanList(cells, a + b) <==> CleanList(cells, a) && CleanList(cells, b)
  {
    assert forall i :: 0 <= i < |a| ==> a[i] == (a + b)[i];
    assert forall i :: 0 <= i < |b| ==> b[i] == (a + b)[|a| + i];
    assert forall i :: |a| <= i < |a + b| ==> (a + b)[i] == b[i - |a|];
  }

  lemma KnownAppend(search: map<CellId, Counter>, systemValues: map<CellId, string>, a: seq<CellId>, b: seq<CellId>)
    ensures KnownList(search, systemValues, a + b) <==> KnownList(search, systemValues, a) && KnownList(search, systemValues, b)
  {
    assert forall i :: 0 <= i < |a| ==> a[i] == (a + b)[i];
    assert forall i :: 0 <= i < |b| ==> b[i] == (a + b)[|a| + i];
    assert forall i :: |a| <= i < |a + b| ==> (a + b)[i] == b[i - |a|];
  }

  /**
   * After running steps, exactly the groups they number are added, the
   * system values are left alone, and every cell known before and every cell
   * they look up outside the system values is known.
   */
  lemma {:induction false} RunKnows(cells: seq<Cell>, rank: seq<nat>, steps: seq<Step>, search: map<CellId, Counter>, d: Dict)
    requires Ranked(cells, rank) && Chained(cells, rank) && AllIn(CellsOf(steps), |cells|)
    ensures var r := Run(cells, rank, steps, search, d);
      r.Ok? ==> && r.value.1.groups.Keys == d.groups.Keys + Elems(GroupsOf(steps))
                && r.value.1.systemValues == d.systemValues && search.Keys <= r.value.0.Keys
                && KnownList(r.value.0, d.systemValues, CellsOf(steps))
    decreases |steps|
  {
    if |steps| > 0 {
      StepHead(steps, |cells|);
      var head := StepCells(steps[0]);
      var x := Do(cells, rank, steps[0], search, d);
      if x.Ok? {
        if steps[0].See? {
          ParamSeenKnows(cells, rank, search, d, steps[0].cell);
        }
        RunKnows(cells, rank, steps[1..], x.value.0, x.value.1);
        var r := Run(cells, rank, steps[1..], x.value.0, x.value.1);
        if r.Ok? {
          var gs := StepGroups(steps[0]);
          ElemsAppend(gs, GroupsOf(steps[1..]));
          assert Elems(gs) == if steps[0].Number? then {steps[0].group} else {};
          KnownAppend(r.value.0, d.systemValues, head, CellsOf(steps[1..]));
        }
      }
    }
  }

  /** One step fails exactly when it numbers a group numbered before, or looks up a bad math cell. */
  lemma DoFails(cells: seq<Cell>, rank: seq<nat>, s: Step, search: map<CellId, Counter>, d: Dict)
    requires Ranked(cells, rank) && Chained(cells, rank) && (s.See? ==> s.cell < |cells|)
    ensures Do(cells, rank, s, search, d).Ok? <==>
      Fresh(d.groups.Keys, StepGroups(s)) && CleanList(cells, StepCells(s))
  {
    if s.See? {
      assert StepCells(s)[0] == s.cell;
    } else {
      assert StepGroups(s)[0] == s.group;
      assert Elems(StepGroups(s)) == {s.group};
    }
  }

  /**
   * Running steps fails exactly when one numbers a group numbered before
   * (in `d` or by an earlier step), or looks up a bad math cell.
   */
  lemma {:induction false} RunFails(cells: seq<Cell>, rank: seq<nat>, steps: seq<Step>, search: map<CellId, Counter>, d: Dict)
    requires Ranked(cells, rank) && Chained(cells, rank) && AllIn(CellsOf(steps), |cells|)
    ensures Run(cells, rank, steps, search, d).Ok? <==>
      Fresh(d.groups.Keys, GroupsOf(steps)) && CleanList(cells, CellsOf(steps))
    decreases |steps|
  {
    if |steps| > 0 {
      StepHead(steps, |cells|);
      var head := StepCells(steps[0]);
      var gs := StepGroups(steps[0]);
      CleanAppend(cells, head, CellsOf(steps[1..]));
      FreshAppend(d.groups.Keys, gs, GroupsOf(steps[1..]));
      DoFails(cells, rank, steps[0], search, d);
      var x := Do(cells, rank, steps[0], search, d);
      if x.Ok? {
        if steps[0].See? {
          ParamSeenKnows(cells, rank, search, d, steps[0].cell);
        }
        RunFails(cells, rank, steps[1..], x.value.0, x.value.1);
      }
    }
  }

  /** Looking up each cell of `ps` in turn. */
  function Sees(ps: seq<CellId>): seq<Step>
    decreases |ps|
  {
    if |ps| == 0 then [] else [See(ps[0])] + Sees(ps[1..])
  }

  lemma {:induction false} SeesCells(ps: seq<CellId>)
    ensures CellsOf(Sees(ps)) == ps && GroupsOf(Sees(ps)) == []
    decreases |ps|
  {
    if |ps| > 0 {
      SeesCells(ps[1..]);
      StepsAppend([See(ps[0])], Sees(ps[1..]));
    }
  }

  /** The nested loops of `CreateLookup` over a list of cells, proved to run `Sees(ps)`. */
  method LookupAll(cells: seq<Cell>, ghost rank: seq<nat>, search: map<CellId, Counter>, d: Dict, ps: seq<CellId>)
    returns (r: Result<(map<CellId, Counter>, Dict)>)
    requires Ranked(cells, rank) && Chained(cells, rank) && AllIn(ps, |cells|)
    ensures r == Run(cells, rank, Sees(ps), search, d)
  {
    var s, dd := search, d;
    var i := 0;
    while i < |ps|
      invariant 0 <= i <= |ps|
      invariant Run(cells, rank, Sees(ps[i..]), s, dd) == Run(cells, rank, Sees(ps), search, d)
    {
      var x := LookupParam(cells, rank, s, dd, ps[i]);
      assert ps[i..][1..] == ps[i + 1..];
      assert Sees(ps[i..])[1..] == Sees(ps[i + 1..]);
      if x.Fail? {
        return Fail(x.fault);
      }
      s, dd := x.value.0, x.value.1;
      i := i + 1;
    }
    assert ps[i..] == [];
    r := Ok((s, dd));
  }

  // ----- The cells and groups of a flat tree -----

  /** The elements of a sequence, as a set. */
  function Elems<T>(s: seq<T>): set<T>
  {
    set x | x in s
  }

  /** The cells of a list of activations, each as its `GetValueWrapper` lists them. */
  function ActivationCells(acts: seq<Activation>): seq<CellId>
    decreases |acts|
  {
    if |acts| == 0 then [] else ActSlots(acts[0]) + ActivationCells(acts[1..])
  }

  /** The cells of a list of effects, each as its `GetValueWrapper` lists them. */
  function ListedCells(effs: seq<Effect>): seq<CellId>
    decreases |effs|
  {
    if |effs| == 0 then [] else Listed(effs[0]) + ListedCells(effs[1..])
  }

  /** The cells `CreateLookup` looks up for a group: its timing, its activations' cells, its effects' cells. */
  function Visited(g: Group): seq<CellId>
  {
    [g.effectTiming] + ActivationCells(g.activations) + ListedCells(g.effects)
  }

  /** Every cell of every group lies in the store. */
  predicate GroupCellsIn(groups: seq<Group>, n: nat)
  {
    forall g :: 0 <= g < |groups| ==> AllIn(Visited(groups[g]), n)
  }

  /** `vis` lists, for each group, the cells `CreateLookup` looks up for it. */
  ghost predicate Lists(vis: seq<seq<CellId>>, groups: seq<Group>)
  {
    |vis| == |groups| && forall g :: 0 <= g < |groups| ==> vis[g] == Visited(groups[g])
  }

  /** Every listed cell lies in the store. */
  predicate VisIn(vis: seq<seq<CellId>>, n: nat)
  {
    forall g :: 0 <= g < |vis| ==> AllIn(vis[g], n)
  }

  /** The groups of a flat tree in the order `CreateLookup` numbers them: each child's, then its own. */
  function LookupOrder(f: Prototypes.Flat): seq<GroupId>
    decreases f, 1
  {
    ChildOrder(f.container, |f.container|) + f.animations
  }

  function ChildOrder(cs: seq<Prototypes.Flat>, k: nat): seq<GroupId>
    requires k <= |cs|
    decreases cs, 0, k
  {
    if k == 0 then [] else ChildOrder(cs, k - 1) + LookupOrder(cs[k - 1])
  }

  /** `CreateLookup` numbers the same groups as `FlatGroups` lists, only in another order. */
  lemma {:induction false} LookupOrderPermutes(f: Prototypes.Flat)
    ensures multiset(LookupOrder(f)) == multiset(Prototypes.FlatGroups(f))
    decreases f, 1
  {
    ChildOrderPermutes(f.container, |f.container|);
  }

  lemma {:induction false} ChildOrderPermutes(cs: seq<Prototypes.Flat>, k: nat)
    requires k <= |cs|
    ensures multiset(ChildOrder(cs, k)) == multiset(Prototypes.ChildGroups(cs, k))
    decreases cs, 0, k
  {
    if k > 0 {
      ChildOrderPermutes(cs, k - 1);
      LookupOrderPermutes(cs[k - 1]);
      assert ChildOrder(cs, k) == ChildOrder(cs, k - 1) + LookupOrder(cs[k - 1]);
      assert Prototypes.ChildGroups(cs, k) == Prototypes.ChildGroups(cs, k - 1) + Prototypes.FlatGroups(cs[k - 1]);
    }
  }

  /** The cells the groups `anims` list, group by group. */
  function AnimCells(vis: seq<seq<CellId>>, anims: seq<GroupId>): seq<CellId>
    decreases |anims|
  {
    if |anims| == 0 then []
    else (if anims[0] < |vis| then vis[anims[0]] else []) + AnimCells(vis, anims[1..])
  }

  /** No cell a flat's own parameters and groups lead to is a cell named "Math" that is no math value. */
  ghost predicate OwnClean(cells: seq<Cell>, vis: seq<seq<CellId>>, f: Prototypes.Flat)
  {
    && (forall k :: k in f.parameter && f.parameter[k] < |cells| ==> !BadMath(cells[f.parameter[k]]))
    && CleanList(cells, AnimCells(vis, f.animations))
  }

  /** `OwnClean` for every flat of the tree. */
  ghost predicate TreeClean(cells: seq<Cell>, vis: seq<seq<CellId>>, f: Prototypes.Flat)
    decreases f, 1
  {
    OwnClean(cells, vis, f) && ChildrenClean(cells, vis, f.container, |f.container|)
  }

  /** `TreeClean` for each of the first `k` children. */
  ghost predicate ChildrenClean(cells: seq<Cell>, vis: seq<seq<CellId>>, cs: seq<Prototypes.Flat>, k: nat)
    requires k <= |cs|
    decreases cs, 0, k
  {
    k == 0 || (ChildrenClean(cells, vis, cs, k - 1) && TreeClean(cells, vis, cs[k - 1]))
  }

  /** Every cell a flat's own parameters and groups lead to, outside the system values, is known. */
  ghost predicate OwnKnown(vis: seq<seq<CellId>>, f: Prototypes.Flat, search: map<CellId, Counter>,
                           systemValues: map<CellId, string>)
  {
    && (forall k :: k in f.parameter && f.parameter[k] !in systemValues ==> f.parameter[k] in search)
    && KnownList(search, systemValues, AnimCells(vis, f.animations))
  }

  /** `OwnKnown` for every flat of the tree. */
  ghost predicate TreeKnown(vis: seq<seq<CellId>>, f: Prototypes.Flat, search: map<CellId, Counter>,
                            systemValues: map<CellId, string>)
    decreases f, 1
  {
    OwnKnown(vis, f, search, systemValues) && ChildrenKnown(vis, f.container, |f.container|, search, systemValues)
  }

  /** `TreeKnown` for each of the first `k` children. */
  ghost predicate ChildrenKnown(vis: seq<seq<CellId>>, cs: seq<Prototypes.Flat>, k: nat, search: map<CellId, Counter>,
                                systemValues: map<CellId, string>)
    requires k <= |cs|
    decreases cs, 0, k
  {
    k == 0 || (ChildrenKnown(vis, cs, k - 1, search, systemValues) && TreeKnown(vis, cs[k - 1], search, systemValues))
  }

  /** The groups of `s` are pairwise distinct and none is in `keys`: numbering them in turn never meets one twice. */
  ghost predicate Fresh(keys: set<GroupId>, s: seq<GroupId>)
  {
    && (forall i :: 0 <= i < |s| ==> s[i] !in keys)
    && (forall i, j :: 0 <= i < j < |s| ==> s[i] != s[j])
  }

  lemma FreshAppend(keys: set<GroupId>, a: seq<GroupId>, b: seq<GroupId>)
    ensures Fresh(keys, a + b) <==> Fresh(keys, a) && Fresh(keys + Elems(a), b)
  {
    if Fresh(keys, a) && Fresh(keys + Elems(a), b) {
      forall i, j | 0 <= i < j < |a + b|
        ensures (a + b)[i] != (a + b)[j]
      {
        if j >= |a| && i < |a| {
          assert (a + b)[i] in Elems(a);
        }
      }
    }
    if Fresh(keys, a + b) {
      forall j | 0 <= j < |b|
        ensures b[j] !in keys + Elems(a)
      {
        assert b[j] == (a + b)[|a| + j];
        forall i | 0 <= i < |a|
          ensures a[i] != b[j]
        {
          assert (a + b)[i] == a[i];
        }
      }
      forall i, j | 0 <= i < j < |b|
        ensures b[i] != b[j]
      {
        assert b[i] == (a + b)[|a| + i] && b[j] == (a + b)[|a| + j];
      }
      forall i | 0 <= i < |a|
        ensures a[i] !in keys
      {
        assert a[i] == (a + b)[i];
      }
      forall i, j | 0 <= i < j < |a|
        ensures a[i] != a[j]
      {
        assert a[i] == (a + b)[i] && a[j] == (a + b)[j];
      }
    }
  }

  // ----- The order of the parameters -----

  /** `ks` lists the names of the dictionary `m`, each exactly once. */
  ghost predicate KeyOrder(ks: seq<string>, m: map<string, CellId>)
  {
    (forall i, j :: 0 <= i < j < |ks| ==> ks[i] != ks[j]) && forall k :: k in m <==> k in ks
  }

  /** `vs` lists the cells of the dictionary `m` in the order `ks` of its names: one entry per name. */
  ghost predicate Enumerates(vs: seq<CellId>, ks: seq<string>, m: map<string, CellId>)
  {
    KeyOrder(ks, m) && |vs| == |ks| && forall i :: 0 <= i < |ks| ==> ks[i] in m && vs[i] == m[ks[i]]
  }

  /**
   * The cells of a parameter dictionary in its enumeration order, which the
   * model leaves open: one entry per name.
   */
  method Enumerate(m: map<string, CellId>) returns (ks: seq<string>, vs: seq<CellId>)
    ensures Enumerates(vs, ks, m)
  {
    vs := [];
    ks := [];
    var left := m.Keys;
    while left != {}
      invariant left <= m.Keys && |vs| == |ks|
      invariant forall i, j :: 0 <= i < j < |ks| ==> ks[i] != ks[j]
      invariant forall k :: k in ks <==> k in m && k !in left
      invariant forall i :: 0 <= i < |ks| ==> ks[i] in m && vs[i] == m[ks[i]]
      decreases |left|
    {
      var k :| k in left;
      vs := vs + [m[k]];
      ks := ks + [k];
      left := left - {k};
    }
  }

  /**
   * The order in which the parameter dictionaries of a flat tree enumerate,
   * one `params` per flat, shaped like the tree.
   */
  datatype Plan = Plan(children: seq<Plan>, names: seq<string>, params: seq<CellId>)

  /** `p` gives an enumeration order for every flat of the tree `f`. */
  ghost predicate Fits(p: Plan, f: Prototypes.Flat)
    decreases f
  {
    && |p.children| == |f.container| && Enumerates(p.params, p.names, f.parameter)
    && forall i :: 0 <= i < |f.container| ==> Fits(p.children[i], f.container[i])
  }

  /** Enumerating every parameter dictionary of a flat tree, before the tree is walked. */
  method MakePlan(f: Prototypes.Flat) returns (p: Plan)
    ensures Fits(p, f)
    decreases f
  {
    var ps := [];
    var i := 0;
    while i < |f.container|
      invariant 0 <= i <= |f.container| && |ps| == i
      invariant forall j :: 0 <= j < i ==> Fits(ps[j], f.container[j])
    {
      var q := MakePlan(f.container[i]);
      ps := ps + [q];
      i := i + 1;
    }
    var ks, vs := Enumerate(f.parameter);
    p := Plan(ps, ks, vs);
  }

  /** Every group of `anims` lies in the group list. */
  predicate GroupIdsIn(anims: seq<GroupId>, n: nat)
  {
    forall i :: 0 <= i < |anims| ==> anims[i] < n
  }

  /** Every parameter cell of every flat of the tree lies in the store. */
  predicate ParamsIn(f: Prototypes.Flat, n: nat)
    decreases f
  {
    && (forall k :: k in f.parameter ==> f.parameter[k] < n)
    && forall i :: 0 <= i < |f.container| ==> ParamsIn(f.container[i], n)
  }

  /** The enumerated cells are the parameter cells: in the store, and bad exactly when one parameter cell is. */
  lemma EnumeratedCells(cells: seq<Cell>, params: map<string, CellId>, ks: seq<string>, vs: seq<CellId>)
    requires forall k :: k in params ==> params[k] < |cells|
    requires Enumerates(vs, ks, params)
    ensures AllIn(vs, |cells|)
    ensures forall k :: k in params ==> params[k] in vs
    ensures (forall i :: 0 <= i < |vs| ==> !BadMath(cells[vs[i]])) <==> forall k :: k in params ==> !BadMath(cells[params[k]])
  {
    forall k | k in params
      ensures params[k] in vs
    {
      var i :| 0 <= i < |ks| && ks[i] == k;
      assert vs[i] == params[k];
    }
  }


  lemma ElemsAppend<T>(a: seq<T>, b: seq<T>)
    ensures Elems(a + b) == Elems(a) + Elems(b)
  {
    assert forall x :: x in a + b <==> x in a || x in b;
  }

  /** The parameters' cells are known exactly when the enumerated cells are. */
  lemma EnumeratedKnown(params: map<string, CellId>, ks: seq<string>, vs: seq<CellId>, search: map<CellId, Counter>,
                        systemValues: map<CellId, string>)
    requires Enumerates(vs, ks, params)
    ensures KnownList(search, systemValues, vs) <==> forall k :: k in params && params[k] !in systemValues ==> params[k] in search
  {
    forall k | k in params
      ensures params[k] in vs
    {
      var i :| 0 <= i < |ks| && ks[i] == k;
      assert vs[i] == params[k];
    }
  }

  // ----- The steps of a flat tree -----

  /** One pass of `CreateLookup`'s group loop: the group draws its id, then its cells are looked up. */
  function GroupSteps(vis: seq<seq<CellId>>, g: GroupId): seq<Step>
  {
    [Number(g)] + if g < |vis| then Sees(vis[g]) else []
  }

  /** `CreateLookup`'s group loop over the groups `anims`. */
  function AnimSteps(vis: seq<seq<CellId>>, anims: seq<GroupId>): seq<Step>
    decreases |anims|
  {
    if |anims| == 0 then [] else GroupSteps(vis, anims[0]) + AnimSteps(vis, anims[1..])
  }

  /** The second half of `CreateLookup`, the parameters enumerating as `vs`: their cells, then the group loop. */
  function OwnSteps(vis: seq<seq<CellId>>, f: Prototypes.Flat, vs: seq<CellId>): seq<Step>
  {
    Sees(vs) + AnimSteps(vis, f.animations)
  }

  /**
   * The steps of `CreateLookup` on a flat tree whose dictionaries enumerate
   * as `p` says: each child's, then its own.
   */
  function TreeSteps(vis: seq<seq<CellId>>, f: Prototypes.Flat, p: Plan): seq<Step>
    decreases f, 1
  {
    ChildSteps(vis, f.container, p.children, |f.container|) + OwnSteps(vis, f, p.params)
  }

  /** The steps of `CreateLookup` on the first `k` children in turn (a missing plan counts as empty). */
  function ChildSteps(vis: seq<seq<CellId>>, cs: seq<Prototypes.Flat>, plans: seq<Plan>, k: nat): seq<Step>
    requires k <= |cs|
    decreases cs, 0, k
  {
    if k == 0 then []
    else ChildSteps(vis, cs, plans, k - 1) + TreeSteps(vis, cs[k - 1], if k - 1 < |plans| then plans[k - 1] else Plan([], [], []))
  }

  /** The flat tree lies in the store and the group list, and `p` fits it. */
  ghost predicate TreeIn(cells: seq<Cell>, vis: seq<seq<CellId>>, f: Prototypes.Flat, p: Plan)
  {
    Prototypes.FlatWithin(f, 0, |vis|) && ParamsIn(f, |cells|) && Fits(p, f)
  }

  /** `TreeIn` for the first `k` children. */
  ghost predicate ChildrenIn(cells: seq<Cell>, vis: seq<seq<CellId>>, cs: seq<Prototypes.Flat>, plans: seq<Plan>, k: nat)
    decreases k
  {
    k <= |cs| && k <= |plans|
    && (k == 0 || (ChildrenIn(cells, vis, cs, plans, k - 1) && TreeIn(cells, vis, cs[k - 1], plans[k - 1])))
  }

  /** The first `j` of the first `k` children lie in the store, and so does child `j`. */
  lemma {:induction false} ChildrenInPrefix(cells: seq<Cell>, vis: seq<seq<CellId>>, cs: seq<Prototypes.Flat>,
                                            plans: seq<Plan>, k: nat, j: nat)
    requires ChildrenIn(cells, vis, cs, plans, k) && j <= k
    ensures ChildrenIn(cells, vis, cs, plans, j) && (j < k ==> TreeIn(cells, vis, cs[j], plans[j]))
    decreases k - j
  {
    if j < k {
      ChildrenInPrefix(cells, vis, cs, plans, k - 1, j);
    }
  }

  /** The children of a tree that lies in the store lie in it too. */
  lemma {:induction false} ChildrenInTree(cells: seq<Cell>, vis: seq<seq<CellId>>, f: Prototypes.Flat, p: Plan, k: nat)
    requires TreeIn(cells, vis, f, p) && k <= |f.container|
    ensures ChildrenIn(cells, vis, f.container, p.children, k)
    decreases k
  {
    if k > 0 {
      ChildrenInTree(cells, vis, f, p, k - 1);
      assert Fits(p.children[k - 1], f.container[k - 1]);
      assert Prototypes.FlatWithin(f.container[k - 1], 0, |vis|);
      assert ParamsIn(f.container[k - 1], |cells|);
    }
  }

  lemma GroupStepsOf(vis: seq<seq<CellId>>, g: GroupId)
    requires g < |vis|
    ensures CellsOf(GroupSteps(vis, g)) == vis[g] && GroupsOf(GroupSteps(vis, g)) == [g]
  {
    StepsAppend([Number(g)], Sees(vis[g]));
    SeesCells(vis[g]);
    assert [Number(g)][1..] == [];
  }

  /** The group loop numbers the groups `anims` in order and looks up their cells in order. */
  lemma {:induction false} AnimStepsOf(vis: seq<seq<CellId>>, anims: seq<GroupId>)
    ensures GroupsOf(AnimSteps(vis, anims)) == anims && CellsOf(AnimSteps(vis, anims)) == AnimCells(vis, anims)
    decreases |anims|
  {
    if |anims| > 0 {
      var g := anims[0];
      var rest := AnimSteps(vis, anims[1..]);
      AnimStepsOf(vis, anims[1..]);
      StepsAppend(GroupSteps(vis, g), rest);
      StepsAppend([Number(g)], if g < |vis| then Sees(vis[g]) else []);
      assert [Number(g)][1..] == [];
      if g < |vis| {
        SeesCells(vis[g]);
      }
      assert anims == [g] + anims[1..];
    }
  }

  /** The groups' cells lie in the store. */
  lemma {:induction false} AnimCellsIn(cells: seq<Cell>, vis: seq<seq<CellId>>, anims: seq<GroupId>)
    requires VisIn(vis, |cells|)
    ensures AllIn(AnimCells(vis, anims), |cells|)
    decreases |anims|
  {
    if |anims| > 0 {
      AnimCellsIn(cells, vis, anims[1..]);
      AllInAppend(if anims[0] < |vis| then vis[anims[0]] else [], AnimCells(vis, anims[1..]), |cells|);
    }
  }

  lemma AnimStepsGroups(cells: seq<Cell>, vis: seq<seq<CellId>>, anims: seq<GroupId>)
    requires VisIn(vis, |cells|)
    ensures GroupsOf(AnimSteps(vis, anims)) == anims && AllIn(CellsOf(AnimSteps(vis, anims)), |cells|)
  {
    AnimStepsOf(vis, anims);
    AnimCellsIn(cells, vis, anims);
  }

  lemma OwnStepsGroups(cells: seq<Cell>, vis: seq<seq<CellId>>, f: Prototypes.Flat, vs: seq<CellId>)
    requires AllIn(vs, |cells|) && GroupIdsIn(f.animations, |vis|) && VisIn(vis, |cells|)
    ensures GroupsOf(OwnSteps(vis, f, vs)) == f.animations && AllIn(CellsOf(OwnSteps(vis, f, vs)), |cells|)
  {
    SeesCells(vs);
    AnimStepsGroups(cells, vis, f.animations);
    StepsAppend(Sees(vs), AnimSteps(vis, f.animations));
    AllInAppend(vs, CellsOf(AnimSteps(vis, f.animations)), |cells|);
  }

  lemma OwnStepsClean(cells: seq<Cell>, vis: seq<seq<CellId>>, f: Prototypes.Flat, ks: seq<string>, vs: seq<CellId>)
    requires Enumerates(vs, ks, f.parameter) && (forall k :: k in f.parameter ==> f.parameter[k] < |cells|)
    ensures CleanList(cells, CellsOf(OwnSteps(vis, f, vs))) <==> OwnClean(cells, vis, f)
  {
    EnumeratedCells(cells, f.parameter, ks, vs);
    SeesCells(vs);
    AnimStepsOf(vis, f.animations);
    StepsAppend(Sees(vs), AnimSteps(vis, f.animations));
    CleanAppend(cells, vs, CellsOf(AnimSteps(vis, f.animations)));
  }

  lemma OwnStepsKnown(vis: seq<seq<CellId>>, f: Prototypes.Flat, ks: seq<string>, vs: seq<CellId>,
                      search: map<CellId, Counter>, systemValues: map<CellId, string>)
    requires Enumerates(vs, ks, f.parameter)
    ensures KnownList(search, systemValues, CellsOf(OwnSteps(vis, f, vs))) <==> OwnKnown(vis, f, search, systemValues)
  {
    EnumeratedKnown(f.parameter, ks, vs, search, systemValues);
    SeesCells(vs);
    AnimStepsOf(vis, f.animations);
    StepsAppend(Sees(vs), AnimSteps(vis, f.animations));
    KnownAppend(search, systemValues, vs, CellsOf(AnimSteps(vis, f.animations)));
  }

  /** A flat tree's steps number its groups in `LookupOrder` and look up cells of the store only. */
  lemma {:induction false} TreeStepsGroups(cells: seq<Cell>, vis: seq<seq<CellId>>, f: Prototypes.Flat, p: Plan)
    requires VisIn(vis, |cells|) && TreeIn(cells, vis, f, p)
    ensures GroupsOf(TreeSteps(vis, f, p)) == LookupOrder(f) && AllIn(CellsOf(TreeSteps(vis, f, p)), |cells|)
    decreases f, 1
  {
    var cs := ChildSteps(vis, f.container, p.children, |f.container|);
    ChildrenInTree(cells, vis, f, p, |f.container|);
    ChildStepsGroups(cells, vis, f.container, p.children, |f.container|);
    EnumeratedCells(cells, f.parameter, p.names, p.params);
    OwnStepsGroups(cells, vis, f, p.params);
    StepsAppend(cs, OwnSteps(vis, f, p.params));
    AllInAppend(CellsOf(cs), CellsOf(OwnSteps(vis, f, p.params)), |cells|);
  }

  lemma {:induction false} ChildStepsGroups(cells: seq<Cell>, vis: seq<seq<CellId>>, cs: seq<Prototypes.Flat>,
                                            plans: seq<Plan>, k: nat)
    requires VisIn(vis, |cells|) && ChildrenIn(cells, vis, cs, plans, k)
    ensures GroupsOf(ChildSteps(vis, cs, plans, k)) == ChildOrder(cs, k)
    ensures AllIn(CellsOf(ChildSteps(vis, cs, plans, k)), |cells|)
    decreases cs, 0, k
  {
    if k > 0 {
      var prev := ChildSteps(vis, cs, plans, k - 1);
      var last := TreeSteps(vis, cs[k - 1], plans[k - 1]);
      assert ChildSteps(vis, cs, plans, k) == prev + last;
      ChildStepsGroups(cells, vis, cs, plans, k - 1);
      TreeStepsGroups(cells, vis, cs[k - 1], plans[k - 1]);
      StepsAppend(prev, last);
      AllInAppend(CellsOf(prev), CellsOf(last), |cells|);
      assert ChildOrder(cs, k) == ChildOrder(cs, k - 1) + LookupOrder(cs[k - 1]);
    }
  }

  /** A flat tree's steps look up no bad math cell exactly when no flat of the tree leads to one. */
  lemma {:induction false} TreeStepsClean(cells: seq<Cell>, vis: seq<seq<CellId>>, f: Prototypes.Flat, p: Plan)
    requires TreeIn(cells, vis, f, p)
    ensures CleanList(cells, CellsOf(TreeSteps(vis, f, p))) <==> TreeClean(cells, vis, f)
    decreases f, 1
  {
    var cs := ChildSteps(vis, f.container, p.children, |f.container|);
    ChildrenInTree(cells, vis, f, p, |f.container|);
    ChildStepsClean(cells, vis, f.container, p.children, |f.container|);
    OwnStepsClean(cells, vis, f, p.names, p.params);
    StepsAppend(cs, OwnSteps(vis, f, p.params));
    CleanAppend(cells, CellsOf(cs), CellsOf(OwnSteps(vis, f, p.params)));
  }

  lemma {:induction false} ChildStepsClean(cells: seq<Cell>, vis: seq<seq<CellId>>, cs: seq<Prototypes.Flat>,
                                           plans: seq<Plan>, k: nat)
    requires ChildrenIn(cells, vis, cs, plans, k)
    ensures CleanList(cells, CellsOf(ChildSteps(vis, cs, plans, k))) <==> ChildrenClean(cells, vis, cs, k)
    decreases cs, 0, k
  {
    if k > 0 {
      var prev := ChildSteps(vis, cs, plans, k - 1);
      var last := TreeSteps(vis, cs[k - 1], plans[k - 1]);
      assert ChildSteps(vis, cs, plans, k) == prev + last;
      ChildStepsClean(cells, vis, cs, plans, k - 1);
      TreeStepsClean(cells, vis, cs[k - 1], plans[k - 1]);
      StepsAppend(prev, last);
      CleanAppend(cells, CellsOf(prev), CellsOf(last));
    }
  }

  /** A flat tree's steps' cells are known exactly when every cell the tree leads to is. */
  lemma {:induction false} TreeStepsKnown(cells: seq<Cell>, vis: seq<seq<CellId>>, f: Prototypes.Flat, p: Plan,
                                          search: map<CellId, Counter>, systemValues: map<CellId, string>)
    requires TreeIn(cells, vis, f, p)
    ensures KnownList(search, systemValues, CellsOf(TreeSteps(vis, f, p))) <==> TreeKnown(vis, f, search, systemValues)
    decreases f, 1
  {
    var cs := ChildSteps(vis, f.container, p.children, |f.container|);
    ChildrenInTree(cells, vis, f, p, |f.container|);
    ChildStepsKnown(cells, vis, f.container, p.children, |f.container|, search, systemValues);
    OwnStepsKnown(vis, f, p.names, p.params, search, systemValues);
    StepsAppend(cs, OwnSteps(vis, f, p.params));
    KnownAppend(search, systemValues, CellsOf(cs), CellsOf(OwnSteps(vis, f, p.params)));
  }

  lemma {:induction false} ChildStepsKnown(cells: seq<Cell>, vis: seq<seq<CellId>>, cs: seq<Prototypes.Flat>,
                                           plans: seq<Plan>, k: nat, search: map<CellId, Counter>,
                                           systemValues: map<CellId, string>)
    requires ChildrenIn(cells, vis, cs, plans, k)
    ensures KnownList(search, systemValues, CellsOf(ChildSteps(vis, cs, plans, k))) <==>
      ChildrenKnown(vis, cs, k, search, systemValues)
    decreases cs, 0, k
  {
    if k > 0 {
      var prev := ChildSteps(vis, cs, plans, k - 1);
      var last := TreeSteps(vis, cs[k - 1], plans[k - 1]);
      assert ChildSteps(vis, cs, plans, k) == prev + last;
      ChildStepsKnown(cells, vis, cs, plans, k - 1, search, systemValues);
      TreeStepsKnown(cells, vis, cs[k - 1], plans[k - 1], search, systemValues);
      StepsAppend(prev, last);
      KnownAppend(search, systemValues, CellsOf(prev), CellsOf(last));
    }
  }

  // ----- CreateLookup -----

  /** One pass of `CreateLookup`'s group loop, proved to run `GroupSteps`. */
  method LookupGroup(cells: seq<Cell>, ghost rank: seq<nat>, groups: seq<Group>, ghost vis: seq<seq<CellId>>, g: GroupId,
                     search: map<CellId, Counter>, d: Dict)
    returns (r: Result<(map<CellId, Counter>, Dict)>)
    requires Ranked(cells, rank) && Chained(cells, rank) && g < |groups| && Lists(vis, groups) && VisIn(vis, |cells|)
    ensures r == Run(cells, rank, GroupSteps(vis, g), search, d)
  {
    assert [Number(g)][1..] == [];
    RunAppend(cells, rank, [Number(g)], Sees(vis[g]), search, d);
    var a := AddGroup(d, g);
    if a.Fail? {
      return Fail(a.fault);
    }
    r := LookupAll(cells, rank, search, a.value, Visited(groups[g]));
  }

  /** `CreateLookup`'s group loop over the groups `anims`, proved to run `AnimSteps`. */
  method LookupGroups(cells: seq<Cell>, ghost rank: seq<nat>, groups: seq<Group>, ghost vis: seq<seq<CellId>>,
                      anims: seq<GroupId>, search: map<CellId, Counter>, d: Dict)
    returns (r: Result<(map<CellId, Counter>, Dict)>)
    requires Ranked(cells, rank) && Chained(cells, rank) && GroupIdsIn(anims, |groups|) && Lists(vis, groups) && VisIn(vis, |cells|)
    ensures r == Run(cells, rank, AnimSteps(vis, anims), search, d)
  {
    var s, dd := search, d;
    var i := 0;
    while i < |anims|
      invariant 0 <= i <= |anims|
      invariant Run(cells, rank, AnimSteps(vis, anims[i..]), s, dd) == Run(cells, rank, AnimSteps(vis, anims), search, d)
    {
      assert anims[i..][1..] == anims[i + 1..];
      RunAppend(cells, rank, GroupSteps(vis, anims[i]), AnimSteps(vis, anims[i + 1..]), s, dd);
      var y := LookupGroup(cells, rank, groups, vis, anims[i], s, dd);
      if y.Fail? {
        return Fail(y.fault);
      }
      s, dd := y.value.0, y.value.1;
      i := i + 1;
    }
    assert anims[i..] == [];
    r := Ok((s, dd));
  }

  /** The second half of `CreateLookup`: the parameters enumerating as `vs`, then the group loop. */
  method LookupOwn(cells: seq<Cell>, ghost rank: seq<nat>, groups: seq<Group>, ghost vis: seq<seq<CellId>>,
                   f: Prototypes.Flat, vs: seq<CellId>, search: map<CellId, Counter>, d: Dict)
    returns (r: Result<(map<CellId, Counter>, Dict)>)
    requires Ranked(cells, rank) && Chained(cells, rank) && Lists(vis, groups) && VisIn(vis, |cells|)
    requires AllIn(vs, |cells|) && GroupIdsIn(f.animations, |groups|)
    ensures r == Run(cells, rank, OwnSteps(vis, f, vs), search, d)
  {
    RunAppend(cells, rank, Sees(vs), AnimSteps(vis, f.animations), search, d);
    var x := LookupAll(cells, rank, search, d, vs);
    if x.Fail? {
      return Fail(x.fault);
    }
    r := LookupGroups(cells, rank, groups, vis, f.animations, x.value.0, x.value.1);
  }

  /**
   * `CreateLookup` on a flat tree whose parameter dictionaries enumerate as
   * `p` says, proved to run `TreeSteps`: each child's lookup, then its own.
   */
  method CreateLookup(cells: seq<Cell>, ghost rank: seq<nat>, groups: seq<Group>, ghost vis: seq<seq<CellId>>,
                      f: Prototypes.Flat, p: Plan, search: map<CellId, Counter>, d: Dict)
    returns (r: Result<(map<CellId, Counter>, Dict)>)
    requires Ranked(cells, rank) && Chained(cells, rank) && Lists(vis, groups) && VisIn(vis, |cells|) && TreeIn(cells, vis, f, p)
    ensures r == Run(cells, rank, TreeSteps(vis, f, p), search, d)
    decreases f, 2
  {
    ChildrenInTree(cells, vis, f, p, |f.container|);
    EnumeratedCells(cells, f.parameter, p.names, p.params);
    RunAppend(cells, rank, ChildSteps(vis, f.container, p.children, |f.container|), OwnSteps(vis, f, p.params), search, d);
    var x := LookupChildren(cells, rank, groups, vis, f.container, p.children, search, d);
    if x.Fail? {
      return Fail(x.fault);
    }
    r := LookupOwn(cells, rank, groups, vis, f, p.params, x.value.0, x.value.1);
  }

  /** `CreateLookup`'s loop over the children, proved to run `ChildSteps`. */
  method LookupChildren(cells: seq<Cell>, ghost rank: seq<nat>, groups: seq<Group>, ghost vis: seq<seq<CellId>>,
                        cs: seq<Prototypes.Flat>, plans: seq<Plan>, search: map<CellId, Counter>, d: Dict)
    returns (r: Result<(map<CellId, Counter>, Dict)>)
    requires Ranked(cells, rank) && Chained(cells, rank) && Lists(vis, groups) && VisIn(vis, |cells|)
    requires ChildrenIn(cells, vis, cs, plans, |cs|)
    ensures r == Run(cells, rank, ChildSteps(vis, cs, plans, |cs|), search, d)
    decreases cs, 1
  {
    var s, dd := search, d;
    var i := 0;
    while i < |cs|
      invariant 0 <= i <= |cs|
      invariant ChildrenRan(cells, rank, vis, cs, plans, i, search, d, s, dd)
    {
      var y := LookupChild(cells, rank, groups, vis, cs, plans, i, search, d, s, dd);
      if y.Fail? {
        return Fail(y.fault);
      }
      s, dd := y.value.0, y.value.1;
      i := i + 1;
    }
    r := Ok((s, dd));
  }

  /** The first `i` children's lookup, run from `(search, d)`, succeeded with `(s, dd)`. */
  ghost predicate ChildrenRan(cells: seq<Cell>, rank: seq<nat>, vis: seq<seq<CellId>>, cs: seq<Prototypes.Flat>,
                              plans: seq<Plan>, i: nat, search: map<CellId, Counter>, d: Dict,
                              s: map<CellId, Counter>, dd: Dict)
  {
    i <= |cs| && Run(cells, rank, ChildSteps(vis, cs, plans, i), search, d) == Ok((s, dd))
  }

  /** One pass of the loop over the children: child `i`'s lookup, after the first `i` children's gave `(s, dd)`. */
  method LookupChild(cells: seq<Cell>, ghost rank: seq<nat>, groups: seq<Group>, ghost vis: seq<seq<CellId>>,
                     cs: seq<Prototypes.Flat>, plans: seq<Plan>, i: nat, ghost search: map<CellId, Counter>, ghost d: Dict,
                     s: map<CellId, Counter>, dd: Dict)
    returns (y: Result<(map<CellId, Counter>, Dict)>)
    requires Ranked(cells, rank) && Chained(cells, rank) && Lists(vis, groups) && VisIn(vis, |cells|)
    requires i < |cs| && ChildrenIn(cells, vis, cs, plans, |cs|)
    requires ChildrenRan(cells, rank, vis, cs, plans, i, search, d, s, dd)
    ensures y.Ok? ==> ChildrenRan(cells, rank, vis, cs, plans, i + 1, search, d, y.value.0, y.value.1)
    ensures y.Fail? ==> Run(cells, rank, ChildSteps(vis, cs, plans, |cs|), search, d) == y
    decreases cs, 0
  {
    ChildrenInPrefix(cells, vis, cs, plans, |cs|, i);
    y := CreateLookup(cells, rank, groups, vis, cs[i], plans[i], s, dd);
    ChildStepsNext(cells, rank, vis, cs, plans, i, search, d, s, dd);
  }

  /** One more child: the children's lookup goes on with that child's, and a failure there is the failure of all. */
  lemma ChildStepsNext(cells: seq<Cell>, rank: seq<nat>, vis: seq<seq<CellId>>, cs: seq<Prototypes.Flat>,
                       plans: seq<Plan>, i: nat, search: map<CellId, Counter>, d: Dict,
                       s: map<CellId, Counter>, dd: Dict)
    requires i < |cs| <= |plans| && Run(cells, rank, ChildSteps(vis, cs, plans, i), search, d) == Ok((s, dd))
    ensures var y := Run(cells, rank, TreeSteps(vis, cs[i], plans[i]), s, dd);
      && Run(cells, rank, ChildSteps(vis, cs, plans, i + 1), search, d) == y
      && (y.Fail? ==> Run(cells, rank, ChildSteps(vis, cs, plans, |cs|), search, d) == y)
  {
    ChildStepsStops(cells, rank, vis, cs, plans, i + 1, |cs|, search, d);
    assert ChildSteps(vis, cs, plans, i + 1) == ChildSteps(vis, cs, plans, i) + TreeSteps(vis, cs[i], plans[i]);
    RunAppend(cells, rank, ChildSteps(vis, cs, plans, i), TreeSteps(vis, cs[i], plans[i]), search, d);
  }

  /** Once the children's lookup fails, the lookup of more children fails the same way. */
  lemma {:induction false} ChildStepsStops(cells: seq<Cell>, rank: seq<nat>, vis: seq<seq<CellId>>, cs: seq<Prototypes.Flat>,
                                           plans: seq<Plan>, k: nat, k': nat, search: map<CellId, Counter>, d: Dict)
    requires k <= k' <= |cs|
    ensures Run(cells, rank, ChildSteps(vis, cs, plans, k), search, d).Fail? ==>
      Run(cells, rank, ChildSteps(vis, cs, plans, k'), search, d) == Run(cells, rank, ChildSteps(vis, cs, plans, k), search, d)
    decreases k' - k
  {
    if k < k' {
      var prev := ChildSteps(vis, cs, plans, k' - 1);
      var last := TreeSteps(vis, cs[k' - 1], if k' - 1 < |plans| then plans[k' - 1] else Plan([], [], []));
      assert ChildSteps(vis, cs, plans, k') == prev + last;
      ChildStepsStops(cells, rank, vis, cs, plans, k, k' - 1, search, d);
      RunAppend(cells, rank, prev, last, search, d);
    }
  }

  // ----- What CreateLookup does -----

  /**
   * `CreateLookup` fails exactly when it numbers a group twice (one numbered
   * before, or one the tree holds twice) or a flat leads to a cell named
   * "Math" that is no math value.
   */
  lemma LookupFails(cells: seq<Cell>, rank: seq<nat>, vis: seq<seq<CellId>>, f: Prototypes.Flat, p: Plan,
                    search: map<CellId, Counter>, d: Dict)
    requires Ranked(cells, rank) && Chained(cells, rank) && VisIn(vis, |cells|) && TreeIn(cells, vis, f, p)
    ensures Run(cells, rank, TreeSteps(vis, f, p), search, d).Ok? <==>
      Fresh(d.groups.Keys, LookupOrder(f)) && TreeClean(cells, vis, f)
  {
    TreeStepsGroups(cells, vis, f, p);
    TreeStepsClean(cells, vis, f, p);
    RunFails(cells, rank, TreeSteps(vis, f, p), search, d);
  }

  /** A successful `CreateLookup` keeps the ids apart and draws ids only for new cells and groups. */
  lemma LookupNumbered(cells: seq<Cell>, rank: seq<nat>, vis: seq<seq<CellId>>, f: Prototypes.Flat, p: Plan,
                       search: map<CellId, Counter>, d: Dict)
    requires Ranked(cells, rank) && Chained(cells, rank) && VisIn(vis, |cells|) && TreeIn(cells, vis, f, p)
    requires Numbered(search, d)
    ensures var r := Run(cells, rank, TreeSteps(vis, f, p), search, d);
      r.Ok? ==> Numbered(r.value.0, r.value.1) && Keeps(search, d, r.value.0, r.value.1)
                && DrawnSince(search, d, r.value.0, r.value.1)
  {
    TreeStepsGroups(cells, vis, f, p);
    RunNumbered(cells, rank, TreeSteps(vis, f, p), search, d);
  }

  /**
   * After a successful `CreateLookup`, exactly the tree's groups have been
   * added, the system values are left alone, and every cell the tree leads
   * to outside the system values is known.
   */
  lemma LookupKnows(cells: seq<Cell>, rank: seq<nat>, vis: seq<seq<CellId>>, f: Prototypes.Flat, p: Plan,
                    search: map<CellId, Counter>, d: Dict)
    requires Ranked(cells, rank) && Chained(cells, rank) && VisIn(vis, |cells|) && TreeIn(cells, vis, f, p)
    ensures var r := Run(cells, rank, TreeSteps(vis, f, p), search, d);
      r.Ok? ==> && r.value.1.groups.Keys == d.groups.Keys + Elems(LookupOrder(f))
                && r.value.1.systemValues == d.systemValues && search.Keys <= r.value.0.Keys
                && TreeKnown(vis, f, r.value.0, d.systemValues)
  {
    TreeStepsGroups(cells, vis, f, p);
    RunKnows(cells, rank, TreeSteps(vis, f, p), search, d);
    var r := Run(cells, rank, TreeSteps(vis, f, p), search, d);
    if r.Ok? {
      TreeStepsKnown(cells, vis, f, p, r.value.0, d.systemValues);
    }
  }
}
