/**
 * Hierarchical statuses. Every status object lives in a catalog; a status
 * reference is an index into it (None is the null reference). A status has
 * a name, an optional parent created before it, and the list of sub-statuses
 * the loader appended to it. Its path is the list of names from its root
 * down to itself.
 */
module Statuses {
  import opened Wrappers
  import opened Text

  datatype StatusNode = StatusNode(name: string, parent: Option<nat>, subs: seq<nat>)

  /** Parents precede their children in the catalog. */
  predicate Ordered(cat: seq<StatusNode>)
  {
    forall i :: 0 <= i < |cat| && cat[i].parent.Some? ==> cat[i].parent.value < i
  }

  /**
   * A catalog as the loader builds it: parents come first, a child is listed
   * among its parent's sub-statuses, and every listed sub-status names its
   * owner as parent.
   */
  predicate Valid(cat: seq<StatusNode>)
  {
    Ordered(cat) &&
    (forall i :: 0 <= i < |cat| && cat[i].parent.Some? ==> i in cat[cat[i].parent.value].subs) &&
    (forall i, j :: 0 <= i < |cat| && 0 <= j < |cat[i].subs| ==>
       cat[i].subs[j] < |cat| && cat[cat[i].subs[j]].parent == Some(i))
  }

  /** No two sub-statuses of one status share a name. */
  predicate UniqueSiblings(cat: seq<StatusNode>)
  {
    forall i, a, b :: 0 <= i < |cat| && 0 <= a < b < |cat[i].subs| && cat[i].subs[b] < |cat| ==>
      cat[i].subs[a] < |cat| ==> cat[cat[i].subs[a]].name != cat[cat[i].subs[b]].name
  }

  /** A null reference or an index into the catalog. */
  predicate IsRef(cat: seq<StatusNode>, s: Option<nat>)
  {
    s.None? || s.value < |cat|
  }

  /** The names from the root down to status `i`. */
  function Path(cat: seq<StatusNode>, i: nat): (p: seq<string>)
    requires Ordered(cat) && i < |cat|
    ensures |p| > 0 && p[|p| - 1] == cat[i].name
    ensures cat[i].parent.None? <==> |p| == 1
    decreases i
  {
    (if cat[i].parent.Some? then Path(cat, cat[i].parent.value) else []) + [cat[i].name]
  }

  /** The path of a reference; the null reference has the empty path. */
  function OptPath(cat: seq<StatusNode>, s: Option<nat>): seq<string>
    requires Ordered(cat) && IsRef(cat, s)
  {
    if s.None? then [] else Path(cat, s.value)
  }

  /** The names from status `i` up to its root: what the stack loops push. */
  function Upward(cat: seq<StatusNode>, i: nat): (u: seq<string>)
    requires Ordered(cat) && i < |cat|
    ensures |u| > 0
    decreases i
  {
    [cat[i].name] + (if cat[i].parent.Some? then Upward(cat, cat[i].parent.value) else [])
  }

  function OptUpward(cat: seq<StatusNode>, s: Option<nat>): seq<string>
    requires Ordered(cat) && IsRef(cat, s)
  {
    if s.None? then [] else Upward(cat, s.value)
  }

  /** The element `j` places below the top of a stack whose top is the end of `s`. */
  function FromTop(s: seq<string>, j: nat): string
    requires j < |s|
  {
    s[|s| - 1 - j]
  }

  /** `s` read from its end to its start. */
  function Reversed(s: seq<string>): (r: seq<string>)
    decreases |s|
  {
    if |s| == 0 then [] else [s[|s| - 1]] + Reversed(s[..|s| - 1])
  }

  /** Reading a reversed sequence from its end gives the sequence from its start. */
  lemma {:induction false} ReversedFromTop(s: seq<string>)
    ensures |Reversed(s)| == |s|
    ensures forall j :: 0 <= j < |s| ==> FromTop(Reversed(s), j) == s[j]
    decreases |s|
  {
    if |s| > 0 {
      var pre := s[..|s| - 1];
      ReversedFromTop(pre);
      forall j | 0 <= j < |s|
        ensures FromTop(Reversed(s), j) == s[j]
      {
        if j < |pre| {
          assert FromTop(Reversed(s), j) == FromTop(Reversed(pre), j);
        }
      }
    }
  }

  /** The upward names are the path reversed. */
  lemma {:induction false} UpwardReversesPath(cat: seq<StatusNode>, i: nat)
    requires Ordered(cat) && i < |cat|
    ensures Upward(cat, i) == Reversed(Path(cat, i))
    decreases i
  {
    if cat[i].parent.Some? {
      var pp := Path(cat, cat[i].parent.value);
      UpwardReversesPath(cat, cat[i].parent.value);
      assert (pp + [cat[i].name])[..|pp|] == pp;
    }
  }

  /** Popping the upward names yields the path from the root down. */
  lemma UpwardIsReversedPath(cat: seq<StatusNode>, i: nat)
    requires Ordered(cat) && i < |cat|
    ensures |Upward(cat, i)| == |Path(cat, i)|
    ensures forall j :: 0 <= j < |Path(cat, i)| ==> FromTop(Upward(cat, i), j) == Path(cat, i)[j]
  {
    UpwardReversesPath(cat, i);
    ReversedFromTop(Path(cat, i));
  }

  /** `Status.ToString()`: the parent's text, a bar, then the name. */
  function ToText(cat: seq<StatusNode>, i: nat): string
    requires Ordered(cat) && i < |cat|
    decreases i
  {
    (if cat[i].parent.Some? then ToText(cat, cat[i].parent.value) + "|" else "") + cat[i].name
  }

  /** The printed form is the path joined with bars. */
  lemma {:induction false} ToTextIsJoinedPath(cat: seq<StatusNode>, i: nat)
    requires Ordered(cat) && i < |cat|
    ensures ToText(cat, i) == Join(Path(cat, i), '|')
    decreases i
  {
    if cat[i].parent.Some? {
      var p := cat[i].parent.value;
      ToTextIsJoinedPath(cat, p);
      JoinSnoc(Path(cat, p), cat[i].name, '|');
    }
  }

  lemma {:induction false} JoinSnoc(parts: seq<string>, last: string, sep: char)
    requires |parts| > 0
    ensures Join(parts + [last], sep) == Join(parts, sep) + [sep] + last
  {
    if |parts| > 1 {
      assert (parts + [last])[1..] == parts[1..] + [last];
      JoinSnoc(parts[1..], last, sep);
    }
  }

  /** Operator `==`: null equals only null; otherwise names and parents agree. */
  function Equal(cat: seq<StatusNode>, a: Option<nat>, b: Option<nat>): bool
    requires Ordered(cat) && IsRef(cat, a) && IsRef(cat, b)
    decreases if a.Some? then a.value + 1 else 0
  {
    if a.None? || b.None? then a == b
    else if cat[a.value].name != cat[b.value].name then false
    else Equal(cat, cat[a.value].parent, cat[b.value].parent)
  }

  /** Two statuses are `==` exactly when their paths are equal. */
  lemma {:induction false} EqualIffSamePath(cat: seq<StatusNode>, a: Option<nat>, b: Option<nat>)
    requires Ordered(cat) && IsRef(cat, a) && IsRef(cat, b)
    ensures Equal(cat, a, b) <==> OptPath(cat, a) == OptPath(cat, b)
    decreases if a.Some? then a.value + 1 else 0
  {
    if a.Some? && b.Some? {
      var x, y := a.value, b.value;
      var px, py := cat[x].parent, cat[y].parent;
      EqualIffSamePath(cat, px, py);
      assert Path(cat, x) == OptPath(cat, px) + [cat[x].name];
      assert Path(cat, y) == OptPath(cat, py) + [cat[y].name];
      if Path(cat, x) == Path(cat, y) {
        assert OptPath(cat, px) == Path(cat, x)[..|Path(cat, x)| - 1];
      }
    }
  }

  /**
   * Operator `!=` as written: equal names give false at once, without
   * looking at the parents, so it is not the negation of `==`.
   */
  function NotEqualAsWritten(cat: seq<StatusNode>, a: Option<nat>, b: Option<nat>): bool
    requires Ordered(cat) && IsRef(cat, a) && IsRef(cat, b)
    decreases if a.Some? then a.value + 1 else 0
  {
    if a.None? || b.None? then a != b
    else if cat[a.value].name == cat[b.value].name then false
    else NotEqualAsWritten(cat, cat[a.value].parent, cat[b.value].parent)
  }

  /**
   * What `!=` computes: aligning the two statuses at their leaves, the
   * names differ at every level both have, and the depths differ.
   */
  lemma {:induction false} NotEqualAsWrittenMeaning(cat: seq<StatusNode>, a: Option<nat>, b: Option<nat>)
    requires Ordered(cat) && IsRef(cat, a) && IsRef(cat, b)
    ensures var ua, ub := OptUpward(cat, a), OptUpward(cat, b);
      NotEqualAsWritten(cat, a, b) <==>
        |ua| != |ub| && forall j :: 0 <= j < |ua| && j < |ub| ==> ua[j] != ub[j]
    decreases if a.Some? then a.value + 1 else 0
  {
    if a.Some? && b.Some? {
      var pa, pb := cat[a.value].parent, cat[b.value].parent;
      NotEqualAsWrittenMeaning(cat, pa, pb);
      var ua, ub := OptUpward(cat, a), OptUpward(cat, b);
      assert ua == [cat[a.value].name] + OptUpward(cat, pa);
      assert ub == [cat[b.value].name] + OptUpward(cat, pb);
      if cat[a.value].name != cat[b.value].name {
        if forall j :: 0 <= j < |OptUpward(cat, pa)| && j < |OptUpward(cat, pb)| ==> OptUpward(cat, pa)[j] != OptUpward(cat, pb)[j] {
          forall j | 0 <= j < |ua| && j < |ub|
            ensures ua[j] != ub[j]
          {
            if j > 0 {
              assert ua[j] == OptUpward(cat, pa)[j - 1] && ub[j] == OptUpward(cat, pb)[j - 1];
            }
          }
        } else {
          var j :| 0 <= j < |OptUpward(cat, pa)| && j < |OptUpward(cat, pb)| && OptUpward(cat, pa)[j] == OptUpward(cat, pb)[j];
          assert ua[j + 1] == ub[j + 1];
        }
      } else {
        assert ua[0] == ub[0];
      }
    }
  }

  /** Two distinct roots with different names are neither `==` nor `!=`. */
  lemma NotEqualAsWrittenIsNotNegation()
    ensures var cat := [StatusNode("a", None, []), StatusNode("b", None, [])];
      Ordered(cat) && !Equal(cat, Some(0), Some(1)) && !NotEqualAsWritten(cat, Some(0), Some(1))
  {
  }

  /** The intended `!=`: the negation of `==`. */
  function NotEqual(cat: seq<StatusNode>, a: Option<nat>, b: Option<nat>): (r: bool)
    requires Ordered(cat) && IsRef(cat, a) && IsRef(cat, b)
    ensures r <==> OptPath(cat, a) != OptPath(cat, b)
  {
    EqualIffSamePath(cat, a, b);
    !Equal(cat, a, b)
  }

  /** `List.Find`: the first sub-status of `i` with the given name. */
  function FirstChild(cat: seq<StatusNode>, subs: seq<nat>, name: string): (r: Option<nat>)
    requires forall j :: 0 <= j < |subs| ==> subs[j] < |cat|
    ensures r.Some? ==> r.value in subs && cat[r.value].name == name
    ensures r.None? ==> forall j :: 0 <= j < |subs| ==> cat[subs[j]].name != name
  {
    if |subs| == 0 then None
    else if cat[subs[0]].name == name then Some(subs[0])
    else FirstChild(cat, subs[1..], name)
  }

  /** Following the names down from status `i`, one level per name. */
  function Descend(cat: seq<StatusNode>, i: nat, names: seq<string>): Option<nat>
    requires Valid(cat) && i < |cat|
    decreases |names|
  {
    if |names| == 0 then Some(i)
    else match FirstChild(cat, cat[i].subs, names[0])
      case None => None
      case Some(c) => Descend(cat, c, names[1..])
  }

  /** What `Find` answers: null for no names or a first name other than the own name. */
  function Lookup(cat: seq<StatusNode>, i: nat, names: seq<string>): Option<nat>
    requires Valid(cat) && i < |cat|
  {
    if |names| == 0 || names[0] != cat[i].name then None else Descend(cat, i, names[1..])
  }

  /** `Status.Find`: descends the sub-statuses one name at a time. */
  method Find(cat: seq<StatusNode>, self: nat, names: seq<string>) returns (r: Option<nat>)
    requires Valid(cat) && self < |cat|
    ensures r == Lookup(cat, self, names)
    ensures r.Some? ==> r.value < |cat|
  {
    if |names| == 0 {
      return None;
    }
    if names[0] != cat[self].name {
      return None;
    }
    var status: nat := self;
    var i := 1;
    while i < |names|
      invariant 1 <= i <= |names| && status < |cat|
      invariant Descend(cat, self, names[1..]) == Descend(cat, status, names[i..])
    {
      assert names[i..][1..] == names[i + 1..];
      var next := FirstChild(cat, cat[status].subs, names[i]);
      if next.None? {
        return None;
      }
      ghost var k :| 0 <= k < |cat[status].subs| && cat[status].subs[k] == next.value;
      status := next.value;
      i := i + 1;
    }
    assert names[i..] == [];
    return Some(status);
  }

  /** A sub-status's path is its owner's path and its own name. */
  lemma ChildPath(cat: seq<StatusNode>, i: nat, c: nat)
    requires Valid(cat) && i < |cat| && c in cat[i].subs
    ensures c < |cat| && Path(cat, c) == Path(cat, i) + [cat[c].name]
  {
    var k :| 0 <= k < |cat[i].subs| && cat[i].subs[k] == c;
  }

  /** Whatever `Find` finds lies below the start and extends its path by the names. */
  lemma {:induction false} DescendPath(cat: seq<StatusNode>, i: nat, names: seq<string>)
    requires Valid(cat) && i < |cat|
    ensures var r := Descend(cat, i, names);
      r.Some? ==> r.value < |cat| && Path(cat, r.value) == Path(cat, i) + names
    decreases |names|
  {
    if |names| > 0 {
      var c := FirstChild(cat, cat[i].subs, names[0]);
      if c.Some? {
        ChildPath(cat, i, c.value);
        DescendPath(cat, c.value, names[1..]);
        assert Path(cat, i) + names == Path(cat, i) + [names[0]] + names[1..];
      }
    }
  }

  /** A status found from a root has exactly the given path. */
  lemma LookupPath(cat: seq<StatusNode>, root: nat, names: seq<string>)
    requires Valid(cat) && root < |cat| && cat[root].parent.None?
    ensures var r := Lookup(cat, root, names);
      r.Some? ==> r.value < |cat| && Path(cat, r.value) == names
  {
    if |names| > 0 && names[0] == cat[root].name {
      DescendPath(cat, root, names[1..]);
      assert Path(cat, root) == [names[0]];
      assert [names[0]] + names[1..] == names;
    }
  }

  /** Status `r` is status `k` or one of its ancestors. */
  predicate AncestorOrSelf(cat: seq<StatusNode>, r: nat, k: nat)
    requires Ordered(cat) && k < |cat|
    decreases k
  {
    r == k || (cat[k].parent.Some? && AncestorOrSelf(cat, r, cat[k].parent.value))
  }

  lemma {:induction false} AncestorPathPrefix(cat: seq<StatusNode>, r: nat, k: nat)
    requires Ordered(cat) && k < |cat| && AncestorOrSelf(cat, r, k)
    ensures r < |cat| && |Path(cat, r)| <= |Path(cat, k)| && Path(cat, k)[..|Path(cat, r)|] == Path(cat, r)
    decreases k
  {
    if r != k {
      AncestorPathPrefix(cat, r, cat[k].parent.value);
    }
  }

  lemma {:induction false} DescendSnoc(cat: seq<StatusNode>, i: nat, names: seq<string>, last: string)
    requires Valid(cat) && i < |cat|
    ensures Descend(cat, i, names + [last]) ==
      (match Descend(cat, i, names)
       case None => None
       case Some(c) => (DescendPath(cat, i, names); Descend(cat, c, [last])))
    decreases |names|
  {
    DescendPath(cat, i, names);
    if |names| > 0 {
      assert (names + [last])[1..] == names[1..] + [last];
      var c := FirstChild(cat, cat[i].subs, names[0]);
      if c.Some? {
        DescendSnoc(cat, c.value, names[1..], last);
      }
    }
  }

  /**
   * With unique sibling names, descending from an ancestor along the rest
   * of a status's path reaches exactly that status.
   */
  lemma {:induction false} DescendReaches(cat: seq<StatusNode>, r: nat, k: nat)
    requires Valid(cat) && UniqueSiblings(cat) && k < |cat| && AncestorOrSelf(cat, r, k)
    ensures r < |cat| && |Path(cat, r)| <= |Path(cat, k)|
    ensures Descend(cat, r, Path(cat, k)[|Path(cat, r)|..]) == Some(k)
    decreases k
  {
    AncestorPathPrefix(cat, r, k);
    if r != k {
      var p := cat[k].parent.value;
      DescendReaches(cat, r, p);
      var pr, pp, pk := Path(cat, r), Path(cat, p), Path(cat, k);
      assert pk == pp + [cat[k].name];
      assert pk[|pr|..] == pp[|pr|..] + [cat[k].name];
      DescendSnoc(cat, r, pp[|pr|..], cat[k].name);
      FirstChildUnique(cat, p, k);
    } else {
      assert Path(cat, k)[|Path(cat, r)|..] == [];
    }
  }

  lemma FirstChildUnique(cat: seq<StatusNode>, p: nat, k: nat)
    requires Valid(cat) && UniqueSiblings(cat) && p < |cat| && k < |cat| && k in cat[p].subs
    ensures Descend(cat, p, [cat[k].name]) == Some(k)
  {
    var subs := cat[p].subs;
    var c := FirstChild(cat, subs, cat[k].name);
    var a :| 0 <= a < |subs| && subs[a] == c.value;
    var b :| 0 <= b < |subs| && subs[b] == k;
    if a != b {
      assert false;
    }
    assert [cat[k].name][1..] == [];
  }

  /** The root of status `k`. */
  function Root(cat: seq<StatusNode>, k: nat): (r: nat)
    requires Ordered(cat) && k < |cat|
    ensures r < |cat| && cat[r].parent.None? && AncestorOrSelf(cat, r, k)
    decreases k
  {
    if cat[k].parent.None? then k else Root(cat, cat[k].parent.value)
  }

  /**
   * With unique sibling names, `Find` from a status's root along its path
   * returns that very status.
   */
  lemma LookupFindsStatus(cat: seq<StatusNode>, k: nat)
    requires Valid(cat) && UniqueSiblings(cat) && k < |cat|
    ensures Lookup(cat, Root(cat, k), Path(cat, k)) == Some(k)
  {
    var r := Root(cat, k);
    DescendReaches(cat, r, k);
    AncestorPathPrefix(cat, r, k);
    assert Path(cat, r) == [cat[r].name];
    assert Path(cat, k)[0] == cat[r].name;
  }

  /** `Status.IsSubsetOrEqualFrom`: is `current`'s path a prefix of `target`'s? */
  method IsSubsetOrEqualFrom(cat: seq<StatusNode>, current: Option<nat>, target: Option<nat>) returns (b: bool)
    requires Ordered(cat) && IsRef(cat, current) && IsRef(cat, target)
    ensures b <==> IsPrefix(OptPath(cat, current), OptPath(cat, target))
    ensures current.None? ==> b
    ensures current.Some? && target.None? ==> !b
  {
    if current.None? {
      return true;
    }
    if target.None? {
      return false;
    }
    var cs := PushNames(cat, current);
    var ts := PushNames(cat, target);
    ghost var c, t := Path(cat, current.value), Path(cat, target.value);
    UpwardIsReversedPath(cat, current.value);
    UpwardIsReversedPath(cat, target.value);
    if |cs| > |ts| {
      return false;
    }
    b := PopCompare(cs, ts, |cs|);
    assert b <==> forall j :: 0 <= j < |c| ==> c[j] == t[j];
    if b {
      assert t[..|c|] == c;
    }
  }

  /** `xs` is a prefix of `ys`. */
  predicate IsPrefix(xs: seq<string>, ys: seq<string>)
  {
    |xs| <= |ys| && ys[..|xs|] == xs
  }

  /** The subset relation is reflexive. */
  lemma SubsetReflexive(cat: seq<StatusNode>, s: Option<nat>)
    requires Ordered(cat) && IsRef(cat, s)
    ensures IsPrefix(OptPath(cat, s), OptPath(cat, s))
  {
  }

  /** Pushes the names from `s` up to its root onto a stack (the end of the sequence is its top). */
  method PushNames(cat: seq<StatusNode>, start: Option<nat>) returns (stack: seq<string>)
    requires Ordered(cat) && IsRef(cat, start)
    ensures stack == OptUpward(cat, start)
  {
    stack := [];
    var s := start;
    while s.Some?
      invariant IsRef(cat, s)
      invariant stack + OptUpward(cat, s) == OptUpward(cat, start)
      decreases if s.Some? then s.value + 1 else 0
    {
      stack := stack + [cat[s.value].name];
      s := cat[s.value].parent;
    }
  }

  /**
   * Pops `count` names off both stacks while their tops agree: true when no
   * pair of the first `count` popped names differs.
   */
  method PopCompare(cs0: seq<string>, ts0: seq<string>, count: nat) returns (b: bool)
    requires count <= |cs0| && count <= |ts0|
    ensures b <==> forall j :: 0 <= j < count ==> FromTop(cs0, j) == FromTop(ts0, j)
  {
    var cs, ts, m := cs0, ts0, count;
    while |cs| > 0 && |ts| > 0 && m > 0
      invariant 0 <= m <= |cs| && m <= |ts| && |cs0| - |cs| == |ts0| - |ts| == count - m
      invariant cs == cs0[..|cs|] && ts == ts0[..|ts|]
      invariant forall j :: 0 <= j < count - m ==> FromTop(cs0, j) == FromTop(ts0, j)
    {
      var x := cs[|cs| - 1];
      var y := ts[|ts| - 1];
      assert x == FromTop(cs0, count - m) && y == FromTop(ts0, count - m);
      cs, ts := cs[..|cs| - 1], ts[..|ts| - 1];
      if x != y {
        return false;
      }
      m := m - 1;
    }
    return true;
  }

  /** What `HasSameBasePath` answers. */
  function SameBasePath(cat: seq<StatusNode>, current: Option<nat>, target: Option<nat>, minLength: int): Result<bool>
    requires Ordered(cat) && IsRef(cat, current) && IsRef(cat, target)
  {
    if current.None? && target.None? then Ok(false)
    else if current.None? || target.None? then Ok(true)
    else if minLength < 0 then Fail(ArgumentOutOfRange)
    else
      var c, t := Path(cat, current.value), Path(cat, target.value);
      if minLength > |c| || minLength > |t| then Ok(false)
      else Ok(c[..minLength] == t[..minLength])
  }

  /**
   * `Status.HasSameBasePath`: both statuses null gives false, one null gives
   * true, a negative length throws, and otherwise the first `minLength` root
   * names must agree (and both paths must be that long).
   */
  method HasSameBasePath(cat: seq<StatusNode>, current: Option<nat>, target: Option<nat>, minLength: int) returns (r: Result<bool>)
    requires Ordered(cat) && IsRef(cat, current) && IsRef(cat, target)
    ensures r == SameBasePath(cat, current, target, minLength)
  {
    if current.None? && target.None? {
      return Ok(false);
    }
    if current.None? || target.None? {
      return Ok(true);
    }
    if minLength < 0 {
      return Fail(ArgumentOutOfRange);
    }
    var cs := PushNames(cat, current);
    var ts := PushNames(cat, target);
    ghost var c, t := Path(cat, current.value), Path(cat, target.value);
    UpwardIsReversedPath(cat, current.value);
    UpwardIsReversedPath(cat, target.value);
    if minLength > |cs| || minLength > |ts| {
      return Ok(false);
    }
    var same := PopCompare(cs, ts, minLength);
    r := Ok(same);
    if same {
      assert c[..minLength] == t[..minLength];
    } else {
      var j :| 0 <= j < minLength && FromTop(cs, j) != FromTop(ts, j);
      assert c[..minLength][j] != t[..minLength][j];
    }
  }

  /** The base-path test of a status against itself holds up to its depth. */
  lemma SameBasePathReflexive(cat: seq<StatusNode>, s: nat, minLength: int)
    requires Ordered(cat) && s < |cat| && 0 <= minLength <= |Path(cat, s)|
    ensures SameBasePath(cat, Some(s), Some(s), minLength) == Ok(true)
  {
  }
}
