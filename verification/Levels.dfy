/** Topic names and filters as sequences of levels separated by '/'. */
module Levels {

  type Path = seq<string>

  /** The first position of `c` in `s`, or -1. */
  function IndexOf(s: string, c: char): (i: int)
    ensures -1 <= i < |s|
    ensures i >= 0 ==> s[i] == c
  {
    if s == "" then -1
    else if s[0] == c then 0
    else
      var i := IndexOf(s[1..], c);
      if i == -1 then -1 else i + 1
  }

  lemma {:induction false} IndexOfIsFirst(s: string, c: char)
    ensures forall j :: 0 <= j < |s| && s[j] == c ==> 0 <= IndexOf(s, c) <= j
  {
    if s != "" && s[0] != c {
      IndexOfIsFirst(s[1..], c);
      forall j | 0 <= j < |s| && s[j] == c ensures 0 <= IndexOf(s, c) <= j {
        assert s[1..][j - 1] == c;
      }
    }
  }

  function Split(s: string): (ls: Path)
    ensures |ls| >= 1
    decreases |s|
  {
    var i := IndexOf(s, '/');
    if i == -1 then [s] else [s[..i]] + Split(s[i + 1..])
  }

  /** Levels contain no separator. */
  lemma {:induction false} SplitLevels(s: string)
    ensures forall k :: 0 <= k < |Split(s)| ==> forall j :: 0 <= j < |Split(s)[k]| ==> Split(s)[k][j] != '/'
    decreases |s|
  {
    var i := IndexOf(s, '/');
    IndexOfIsFirst(s, '/');
    if i >= 0 {
      SplitLevels(s[i + 1..]);
    }
  }

  function Join(ls: Path): string
    requires |ls| >= 1
  {
    if |ls| == 1 then ls[0] else ls[0] + "/" + Join(ls[1..])
  }

  lemma SplitStep(s: string)
    ensures var i := IndexOf(s, '/');
            if i == -1 then Split(s) == [s] else Split(s)[0] == s[..i] && Split(s)[1..] == Split(s[i + 1..])
  {
  }

  lemma {:induction false} JoinSplit(s: string)
    ensures Join(Split(s)) == s
    decreases |s|
  {
    var i := IndexOf(s, '/');
    SplitStep(s);
    if i >= 0 {
      JoinSplit(s[i + 1..]);
      CutAt(s, i);
    }
  }

  lemma CutAt(s: string, i: nat)
    requires i < |s| && s[i] == '/'
    ensures s[..i] + "/" + s[i + 1..] == s
  {
  }

  lemma SplitInjective(s: string, t: string)
    requires Split(s) == Split(t)
    ensures s == t
  {
    JoinSplit(s);
    JoinSplit(t);
  }

  /** Level `d` of `s` and whether another follows; past the end, the last level again. */
  function Isolate(s: string, d: int): (string, bool) {
    var ls := Split(s);
    if d < 0 then ("", false)
    else if d < |ls| - 1 then (ls[d], true)
    else (ls[|ls| - 1], false)
  }

  /** The levels that `set` and `seek` walk, starting at level `d`. */
  function PathFrom(s: string, d: nat): (p: Path)
    ensures |p| >= 1
  {
    var ls := Split(s);
    if d < |ls| then ls[d..] else [ls[|ls| - 1]]
  }

  /** `isolateParticle`: cuts one level after another off the front of the filter. */
  method IsolateParticle(filter: string, d: int) returns (particle: string, hasNext: bool)
    ensures particle == Isolate(filter, d).0 && hasNext == Isolate(filter, d).1
  {
    particle, hasNext := "", false;
    var rest, end, i := filter, 0, 0;
    ghost var ls := Split(filter);
    while end > -1 && i <= d
      invariant 0 <= i && -1 <= end
      invariant end == -1 ==> |ls| <= i <= d + 1 && particle == ls[|ls| - 1] && !hasNext
      invariant end > -1 && i <= d ==> i < |ls| && Split(rest) == ls[i..] && particle == "" && !hasNext
      invariant end > -1 && i > d ==> if d < 0 then particle == "" && !hasNext else d < |ls| - 1 && particle == ls[d] && hasNext
      decreases d - i + 1
    {
      end := IndexOf(rest, '/');
      SplitStep(rest);
      if d > -1 && i == d && end > -1 {
        hasNext := true;
        particle := rest[..end];
        assert ls[i] == ls[i..][0];
      } else if end > -1 {
        hasNext := false;
        rest := rest[end + 1..];
        assert ls[i..][1..] == ls[i + 1..];
      } else {
        hasNext := false;
        particle := rest;
        assert ls[i..] == [rest];
      }
      i := i + 1;
    }
  }

  // ---------------------------------------------------------------- shared filters

  const SYS_PREFIX := "$SYS"

  /** Simple case folding onto the letters of "$SHARE"; U+017F folds onto S. */
  predicate FoldsTo(c: char, upper: char) {
    || c == upper
    || ('A' <= upper <= 'Z' && c as int == upper as int + 32)
    || (upper == 'S' && c as int == 0x17F)
  }

  predicate IsSharePrefix(s: string) {
    |s| == 6 && FoldsTo(s[0], '$') && FoldsTo(s[1], 'S') && FoldsTo(s[2], 'H')
    && FoldsTo(s[3], 'A') && FoldsTo(s[4], 'R') && FoldsTo(s[5], 'E')
  }

  predicate IsSharedFilter(filter: string) { IsSharePrefix(Isolate(filter, 0).0) }

  /** Where in the index a filter lives: a shared one without its prefix, in its group. */
  datatype Place = Plain(path: Path) | Shared(group: string, path: Path)

  function PlaceOf(filter: string): Place {
    if IsSharedFilter(filter) then Shared(Isolate(filter, 1).0, PathFrom(filter, 2)) else Plain(PathFrom(filter, 0))
  }

  /** No level of its own: text without a separator. */
  ghost predicate IsLevel(s: string) { forall i :: 0 <= i < |s| ==> s[i] != '/' }

  lemma SplitFirst(level: string, rest: string)
    requires IsLevel(level)
    ensures Split(level + "/" + rest) == [level] + Split(rest)
  {
    var s := level + "/" + rest;
    IndexOfIsFirst(s, '/');
    assert s[|level|] == '/' && s[..|level|] == level && s[|level| + 1..] == rest;
    assert forall j :: 0 <= j < |level| ==> s[j] == level[j];
  }

  /** The prefix is `$share` in any mixture of cases, or with U+017F for an S. */
  lemma SharePrefixExactly(s: string)
    ensures IsSharePrefix(s) <==>
              |s| == 6 && s[0] == '$' && s[1] in ['S', 's', 0x17F as char] && s[2] in ['H', 'h'] && s[3] in ['A', 'a']
              && s[4] in ['R', 'r'] && s[5] in ['E', 'e']
  {
  }

  lemma SharedSplit(prefix: string, group: string, filter: string)
    requires IsLevel(prefix) && IsLevel(group)
    ensures Split(prefix + "/" + group + "/" + filter) == [prefix, group] + Split(filter)
  {
    var rest := group + "/" + filter;
    assert prefix + "/" + group + "/" + filter == prefix + "/" + rest;
    SplitFirst(prefix, rest);
    SplitFirst(group, filter);
  }

  lemma PlaceOfLevels(s: string, prefix: string, group: string, levels: Path)
    requires Split(s) == [prefix, group] + levels && levels != []
    ensures PlaceOf(s) == if IsSharePrefix(prefix) then Shared(group, levels) else Plain([prefix, group] + levels)
  {
    assert ([prefix, group] + levels)[2..] == levels;
  }

  /** A filter `$share/group/filter` is filed in its group under the levels of the filter behind
      it, and with any other first level under all of its levels. */
  lemma SharedPlace(prefix: string, group: string, filter: string)
    requires IsLevel(prefix) && IsLevel(group)
    ensures PlaceOf(prefix + "/" + group + "/" + filter) ==
              if IsSharePrefix(prefix) then Shared(group, Split(filter)) else Plain([prefix, group] + Split(filter))
  {
    SharedSplit(prefix, group, filter);
    PlaceOfLevels(prefix + "/" + group + "/" + filter, prefix, group, Split(filter));
  }
}
