/** `scanMessages`: the retained messages that a new subscription receives. */
module MessageScan {
  import opened Collections
  import opened Levels
  import opened TrieContents
  import opened TopicTable
  import opened TopicIndex
  import opened Topics
  import opened Matching

  // ---------------------------------------------------------------- what is delivered

  ghost predicate IsKept(m: Message, retained: map<string, Message>) { m.topic in retained && retained[m.topic] == m }

  ghost predicate Includes(out: seq<Message>, topic: string) { exists i :: 0 <= i < |out| && out[i].topic == topic }

  ghost predicate NoRepeats(out: seq<Message>) { forall i, j :: 0 <= i < j < |out| ==> out[i].topic != out[j].topic }

  /** `out` has the retained messages of the paths `at`, each once, and nothing else. */
  ghost predicate Delivers(out: seq<Message>, retained: map<string, Message>, at: set<Path>) {
    && (forall i :: 0 <= i < |out| ==> IsKept(out[i], retained) && Split(out[i].topic) in at)
    && (forall t <- retained | Split(t) in at :: Includes(out, t))
    && NoRepeats(out)
  }

  /** The message recorded at one path, if it is still retained. */
  function Stored(retained: map<string, Message>, path: string): (out: seq<Message>)
  {
    if path in retained then [retained[path]] else []
  }

  lemma StoredDelivers(f: Trie, retained: map<string, Message>, p: Path)
    requires Coherent(f, retained)
    ensures Delivers(Stored(retained, At(f, p).retainPath), retained, {p})
  {
    var out := Stored(retained, At(f, p).retainPath);
    forall t <- retained | Split(t) == p ensures Includes(out, t) {
      assert At(f, Split(t)).retainPath == t;
      assert out[0].topic == t;
    }
    assert At(f, p).retainPath in retained ==> At(f, p).retainPath != "" && p in f && Filed(PlaceOf, p, f[p]);
  }

  // ---------------------------------------------------------------- which paths are visited

  ghost predicate IsVisit(t: Trie, path: Path, fl: Path, top: bool, q: Path)
    requires fl != []
  {
    q in t && path < q && Retrieves(fl, q[|path|..], top)
  }

  ghost function Visits(t: Trie, path: Path, fl: Path, top: bool): set<Path>
    requires fl != []
  {
    set q | q in t && IsVisit(t, path, fl, top, q)
  }

  /** The visits that begin with one of the levels `ks`. */
  ghost function VisitsVia(t: Trie, path: Path, fl: Path, top: bool, ks: set<string>): set<Path>
    requires fl != []
  {
    set q | q in t && IsVisit(t, path, fl, top, q) && q[|path|] in ks
  }

  /** The filter's levels left for the next depth: past the end, the last one again. */
  function Next(fl: Path): (r: Path)
    requires fl != []
    ensures r != []
  {
    if |fl| > 1 then fl[1..] else fl
  }

  /** What the scan visits through one child of a node. */
  ghost function Through(t: Trie, child: Path, fl: Path): set<Path>
    requires fl != []
  {
    (if |fl| == 1 then {child} else {})
    + (if |fl| > 1 || fl[0] == HASH then Visits(t, child, Next(fl), false) else {})
  }

  lemma ThroughChild(t: Trie, path: Path, fl: Path, top: bool, k: string)
    requires fl != [] && path + [k] in t
    requires if IsWild(fl[0]) then !(top && k == SYS_PREFIX) else fl[0] == k
    ensures VisitsVia(t, path, fl, top, {k}) == Through(t, path + [k], fl)
    ensures path + [k] !in Visits(t, path + [k], Next(fl), false)
  {
    var child := path + [k];
    forall q | q in t ensures IsVisit(t, path, fl, top, q) && q[|path|] == k <==> q in Through(t, child, fl) {
      if path < q && q[|path|] == k {
        var tl := q[|path|..];
        assert q == child + q[|child|..] && tl[1..] == q[|child|..] && tl[0] == k;
        assert child < q <==> |tl| > 1;
        assert q == child <==> |tl| == 1;
        if |fl| > 1 {
          assert Retrieves(fl, tl, top) <==> Retrieves(fl[1..], tl[1..], false);
          assert q in Through(t, child, fl) <==> IsVisit(t, child, fl[1..], false, q);
        } else if fl[0] == HASH {
          assert |tl| > 1 ==> Retrieves(fl, tl[1..], false) && IsVisit(t, child, fl, false, q);
        }
      } else {
        assert child <= q ==> path < q && q[|path|] == child[|path|];
      }
    }
  }

  lemma NoVisitVia(t: Trie, path: Path, fl: Path, top: bool, k: string)
    requires fl != []
    requires IsWild(fl[0]) ==> top && k == SYS_PREFIX
    requires !IsWild(fl[0]) ==> fl[0] != k
    ensures VisitsVia(t, path, fl, top, {k}) == {}
  {
  }

  lemma ViaMore(t: Trie, path: Path, fl: Path, top: bool, ks: set<string>, k: string)
    requires fl != [] && k !in ks
    ensures VisitsVia(t, path, fl, top, ks + {k}) == VisitsVia(t, path, fl, top, ks) + VisitsVia(t, path, fl, top, {k})
    ensures VisitsVia(t, path, fl, top, ks) !! VisitsVia(t, path, fl, top, {k})
  {
  }

  lemma ViaAll(sh: Shape, path: Path, fl: Path, top: bool)
    requires WellLinked(sh) && path in sh.nodes && fl != []
    ensures Visits(sh.contents, path, fl, top) == VisitsVia(sh.contents, path, fl, top, sh.nodes[path].particles.Keys)
  {
    LinksMirrorContents(sh);
    forall q | q in sh.contents && path < q ensures q[|path|] in sh.nodes[path].particles {
      assert path + [q[|path|]] <= q;
      PrefixIn(sh.contents, path + [q[|path|]], q);
      ChildLookup(sh, path, q[|path|]);
    }
  }

  lemma ViaOne(sh: Shape, path: Path, fl: Path, top: bool)
    requires WellLinked(sh) && path in sh.nodes && fl != [] && !IsWild(fl[0])
    ensures Visits(sh.contents, path, fl, top) == VisitsVia(sh.contents, path, fl, top, {fl[0]})
    ensures fl[0] !in sh.nodes[path].particles ==> Visits(sh.contents, path, fl, top) == {}
  {
    ViaAll(sh, path, fl, top);
    forall q | q in Visits(sh.contents, path, fl, top) ensures q[|path|] == fl[0] {}
  }

  lemma NextLevel(filter: string, d: nat)
    ensures var fl := PathFrom(filter, d);
            Isolate(filter, d) == (fl[0], |fl| > 1) && Next(fl) == PathFrom(filter, d + 1)
  {
  }

  // ---------------------------------------------------------------- the scan

  predicate HasWildcard(filter: string) { IndexOf(filter, '#') >= 0 || IndexOf(filter, '+') >= 0 }

  /** `out` is `pks` followed by the messages retained at `at`. */
  ghost predicate Extends(out: seq<Message>, pks: seq<Message>, retained: map<string, Message>, at: set<Path>) {
    pks <= out && Delivers(out[|pks|..], retained, at)
  }

  lemma ExtendsBoth(out: seq<Message>, mid: seq<Message>, pks: seq<Message>, retained: map<string, Message>, p: set<Path>, q: set<Path>)
    requires Extends(mid, pks, retained, p) && Extends(out, mid, retained, q) && p !! q
    ensures Extends(out, pks, retained, p + q)
  {
  }

  lemma LiteralLevels(filter: string)
    requires !HasWildcard(filter)
    ensures forall k :: 0 <= k < |Split(filter)| ==> !IsWild(Split(filter)[k])
  {
    IndexOfIsFirst(filter, '#');
    IndexOfIsFirst(filter, '+');
    LevelsLack(filter, '#');
    LevelsLack(filter, '+');
    assert HASH[0] == '#' && PLUS[0] == '+';
    assert forall k :: 0 <= k < |Split(filter)| ==> Lacks(Split(filter)[k], '#') && Lacks(Split(filter)[k], '+');
  }

  /** A filter without wildcards is looked up directly. */
  lemma ExactDelivers(t: Trie, retained: map<string, Message>, filter: string)
    requires Coherent(Flat(t), retained) && !HasWildcard(filter)
    ensures Delivers(Stored(retained, filter), retained, Visits(t, [], Split(filter), true))
  {
    var fl, at := Split(filter), Visits(t, [], Split(filter), true);
    LiteralLevels(filter);
    forall q ensures q in at <==> q in t && q == fl {
      LiteralRetrieves(fl, q, true);
      assert q[0..] == q;
    }
    forall s <- retained | Split(s) in at ensures s == filter { SplitInjective(s, filter); }
    assert filter in retained ==> At(Flat(t), fl).retainPath == filter && Stored(retained, filter)[0].topic == filter;
  }

  lemma EmptyDelivers(t: Trie, retained: map<string, Message>, filter: string, path: Path, pks: seq<Message>)
    requires Coherent(Flat(t), retained) && (filter == "" || |retained| == 0) && (path != [] ==> filter != "")
    ensures Extends(pks, pks, retained, Visits(t, path, PathFrom(filter, |path|), path == []))
  {
  }

  lemma ExtendsNone(pks: seq<Message>, retained: map<string, Message>)
    ensures Extends(pks, pks, retained, {})
  {
  }

  ghost predicate Fits(t: Trie, height: nat) { forall q <- t :: |q| <= height }

  /** The retained message of one particle. */
  method Collect(x: TopicsIndex, n: Particle, pks: seq<Message>, ghost p: Path) returns (out: seq<Message>)
    requires x.Valid() && p in x.sh.nodes && n == x.sh.nodes[p]
    ensures Extends(out, pks, x.retained, {p})
  {
    MirrorAt(x.sh, p);
    StoredDelivers(x.Table(), x.retained, p);
    assert n.retainPath == At(x.Table(), p).retainPath;
    out := pks;
    if n.retainPath in x.retained {
      out := pks + [x.retained[n.retainPath]];
    }
    assert out[|pks|..] == Stored(x.retained, n.retainPath);
  }

  method ScanMessages(x: TopicsIndex, filter: string, d: nat, n: Particle, pks: seq<Message>, ghost path: Path, ghost height: nat)
      returns (out: seq<Message>)
    requires x.Valid() && path in x.sh.nodes && n == x.sh.nodes[path] && |path| == d && Fits(x.sh.contents, height)
    requires d > 0 ==> HasWildcard(filter)
    ensures Extends(out, pks, x.retained, Visits(x.sh.contents, path, PathFrom(filter, d), d == 0))
    decreases height - |path|, 2
  {
    ghost var fl, t := PathFrom(filter, d), x.sh.contents;
    if |filter| == 0 || |x.retained| == 0 {
      EmptyDelivers(t, x.retained, filter, path, pks);
      return pks;
    }
    if !HasWildcard(filter) {
      ExactDelivers(t, x.retained, filter);
      out := pks + Stored(x.retained, filter);
      assert out[|pks|..] == Stored(x.retained, filter);
      return;
    }
    NextLevel(filter, d);
    var key, hasNext := IsolateParticle(filter, d);
    if key == PLUS || key == HASH {
      out := ScanAdjacent(x, filter, d, n, pks, key, hasNext, path, height);
      return;
    }
    ViaOne(x.sh, path, fl, d == 0);
    ChildLookup(x.sh, path, key);
    if key !in n.particles {
      ExtendsNone(pks, x.retained);
      return pks;
    }
    ThroughChild(t, path, fl, d == 0, key);
    out := ScanChild(x, filter, d, n.particles[key], pks, key, hasNext, path + [key], height);
  }

  /** Every child of a node that a wildcard level stands for. */
  method ScanAdjacent(x: TopicsIndex, filter: string, d: nat, n: Particle, pks: seq<Message>, key: string, hasNext: bool,
                      ghost path: Path, ghost height: nat)
      returns (out: seq<Message>)
    requires x.Valid() && path in x.sh.nodes && n == x.sh.nodes[path] && |path| == d && Fits(x.sh.contents, height)
    requires HasWildcard(filter) && IsWild(key) && (key, hasNext) == Isolate(filter, d)
    ensures Extends(out, pks, x.retained, Visits(x.sh.contents, path, PathFrom(filter, d), d == 0))
    decreases height - |path|, 1
  {
    ghost var fl, t := PathFrom(filter, d), x.sh.contents;
    NextLevel(filter, d);
    ViaAll(x.sh, path, fl, d == 0);
    ExtendsNone(pks, x.retained);
    out := pks;
    var left := n.particles.Keys;
    ghost var done: set<string> := {};
    ghost var all := left;
    assert VisitsVia(t, path, fl, d == 0, {}) == {};
    while left != {}
      invariant left <= all && left !! done && left + done == all
      invariant Extends(out, pks, x.retained, VisitsVia(t, path, fl, d == 0, done))
      decreases |left|
    {
      var k :| k in left;
      ViaMore(t, path, fl, d == 0, done, k);
      ChildLookup(x.sh, path, k);
      ghost var mid := out;
      if d == 0 && k == SYS_PREFIX {
        NoVisitVia(t, path, fl, d == 0, k);
        ExtendsNone(out, x.retained);
      } else {
        ThroughChild(t, path, fl, d == 0, k);
        out := ScanChild(x, filter, d, n.particles[k], out, key, hasNext, path + [k], height);
      }
      ExtendsBoth(out, mid, pks, x.retained, VisitsVia(t, path, fl, d == 0, done), VisitsVia(t, path, fl, d == 0, {k}));
      MoveOver(left, done, k);
      left, done := left - {k}, done + {k};
    }
    assert done == all;
  }

  /** One child: its own message at the filter's end, and the levels below where any remain. */
  method ScanChild(x: TopicsIndex, filter: string, d: nat, child: Particle, pks: seq<Message>, key: string, hasNext: bool,
                   ghost p: Path, ghost height: nat)
      returns (out: seq<Message>)
    requires x.Valid() && p in x.sh.nodes && child == x.sh.nodes[p] && |p| == d + 1 && Fits(x.sh.contents, height)
    requires HasWildcard(filter) && (key, hasNext) == Isolate(filter, d)
    ensures Extends(out, pks, x.retained, Through(x.sh.contents, p, PathFrom(filter, d)))
    decreases height - |p|, 3
  {
    ghost var fl, t := PathFrom(filter, d), x.sh.contents;
    NextLevel(filter, d);
    ExtendsNone(pks, x.retained);
    out := pks;
    ghost var own: set<Path> := {};
    if !hasNext {
      out := Collect(x, child, out, p);
      own := {p};
    }
    if hasNext || key == HASH {
      ghost var mid := out;
      out := ScanMessages(x, filter, d + 1, child, out, p, height);
      ExtendsBoth(out, mid, pks, x.retained, own, Visits(t, p, Next(fl), false));
    }
    assert {} + Visits(t, p, Next(fl), false) == Visits(t, p, Next(fl), false) && own + {} == own;
  }

  // ---------------------------------------------------------------- what a subscriber receives

  /** The paths in a finite trie have bounded length. */
  lemma {:induction false} Bounded(paths: set<Path>) returns (height: nat)
    ensures forall q <- paths :: |q| <= height
    decreases |paths|
  {
    height := 0;
    if paths != {} {
      var p :| p in paths;
      var rest := Bounded(paths - {p});
      height := if |p| > rest then |p| else rest;
      forall q <- paths ensures |q| <= height { assert q == p || q in paths - {p}; }
    }
  }

  /** Every retained message whose topic the filter retrieves, once, and nothing else. */
  ghost predicate Answers(out: seq<Message>, retained: map<string, Message>, filter: string) {
    && (forall i :: 0 <= i < |out| ==> IsKept(out[i], retained) && Retrieves(Split(filter), Split(out[i].topic), true))
    && (forall t <- retained | Retrieves(Split(filter), Split(t), true) :: Includes(out, t))
    && NoRepeats(out)
  }

  lemma VisitsAnswer(t: Trie, retained: map<string, Message>, filter: string, out: seq<Message>)
    requires Coherent(Flat(t), retained) && Delivers(out, retained, Visits(t, [], Split(filter), true))
    ensures Answers(out, retained, filter)
  {
  }

  method Messages(x: TopicsIndex, filter: string) returns (out: seq<Message>)
    requires x.Valid()
    ensures Answers(out, x.retained, filter)
  {
    ghost var height := Bounded(x.sh.contents.Keys);
    out := ScanMessages(x, filter, 0, x.root, [], [], height);
    assert PathFrom(filter, 0) == Split(filter) && out[0..] == out;
    VisitsAnswer(x.sh.contents, x.retained, filter, out);
  }
}
