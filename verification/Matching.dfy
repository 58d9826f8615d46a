/** The level relation that the subscriber scan computes, against the standard's wording. */
module Matching {
  import opened Levels

  const HASH := "#"
  const PLUS := "+"

  /** A filter's levels are visited by the scan for a topic's levels. */
  predicate Reaches(fl: Path, tl: Path)
    requires tl != []
    decreases tl
  {
    || fl == [HASH]
    || (fl != [] && (fl[0] == tl[0] || fl[0] == PLUS)
        && if |tl| > 1 then Reaches(fl[1..], tl[1..])
           else |fl| == 1 || (fl[1..] == [HASH] && fl[0] != PLUS))
  }

  // ---------------------------------------------------------------- section 4.7.1 of MQTT 5.0

  predicate LevelMatches(f: string, t: string) { f == PLUS || f == t }

  ghost predicate LevelsMatch(fl: Path, tl: Path, n: nat) {
    n <= |fl| && n <= |tl| && forall i :: 0 <= i < n ==> LevelMatches(fl[i], tl[i])
  }

  /** `#` stands for any number of levels and its parent, `+` for one level. */
  ghost predicate Standard(fl: Path, tl: Path)
    requires fl != []
  {
    if fl[|fl| - 1] == HASH then LevelsMatch(fl, tl, |fl| - 1) else |fl| == |tl| && LevelsMatch(fl, tl, |fl|)
  }

  ghost predicate HashOnlyLast(fl: Path) { forall i :: 0 <= i < |fl| - 1 ==> fl[i] != HASH }
  ghost predicate IsTopicName(tl: Path) { tl != [] && forall i :: 0 <= i < |tl| ==> tl[i] != HASH && tl[i] != PLUS }

  /** A filter ending in `+/#`, seen from the parent level of its `#`. */
  predicate PlusHashAtParent(fl: Path, tl: Path) { |fl| == |tl| + 1 >= 2 && fl[|tl| - 1] == PLUS }

  /** The scan meets the standard except that `+/#` misses its parent level. */
  lemma {:induction false} ScanMeetsStandard(fl: Path, tl: Path)
    requires fl != [] && HashOnlyLast(fl) && IsTopicName(tl)
    ensures Reaches(fl, tl) <==> Standard(fl, tl) && !PlusHashAtParent(fl, tl)
    decreases tl
  {
    if fl != [HASH] && LevelMatches(fl[0], tl[0]) {
      if |fl| > 1 && |tl| > 1 {
        ScanMeetsStandard(fl[1..], tl[1..]);
        StandardTail(fl, tl);
      } else if |fl| == 1 && |tl| > 1 {
        assert !Reaches(fl[1..], tl[1..]);
      } else if |fl| > 1 {
        assert Standard(fl, tl) ==> |fl| == 2 && fl[1] == HASH;
        assert fl[1..] == [HASH] <==> |fl| == 2 && fl[1] == HASH;
        assert LevelsMatch(fl, tl, 1);
      }
    }
  }

  lemma StandardTail(fl: Path, tl: Path)
    requires |fl| > 1 && |tl| > 1 && LevelMatches(fl[0], tl[0])
    ensures Standard(fl, tl) <==> Standard(fl[1..], tl[1..])
  {
  }

  // ---------------------------------------------------------------- the retained scan

  predicate IsWild(level: string) { level == PLUS || level == HASH }

  /** Levels of topics below a node that the retained scan visits; `top` at the root. */
  predicate Retrieves(fl: Path, tl: Path, top: bool)
    requires fl != []
    decreases fl
  {
    && tl != []
    && (if IsWild(fl[0]) then !(top && tl[0] == SYS_PREFIX) else fl[0] == tl[0])
    && (if |fl| > 1 then Retrieves(fl[1..], tl[1..], false) else fl[0] == HASH || |tl| == 1)
  }

  /** The retained scan meets the standard except at the parent level of `#`, and of the
      topics that start with `$` it keeps only `$SYS` from a leading wildcard. */
  lemma {:induction false} RetainedScanMeetsStandard(fl: Path, tl: Path, top: bool)
    requires fl != [] && HashOnlyLast(fl) && IsTopicName(tl)
    ensures Retrieves(fl, tl, top) <==>
              Standard(fl, tl) && |fl| <= |tl| && !(top && IsWild(fl[0]) && tl[0] == "$SYS")
    decreases fl
  {
    if LevelMatches(fl[0], tl[0]) && |fl| > 1 && |tl| > 1 {
      RetainedScanMeetsStandard(fl[1..], tl[1..], false);
      StandardTail(fl, tl);
    }
  }

  /** Without wildcard levels only the filter's own topic is retrieved. */
  lemma {:induction false} LiteralRetrieves(fl: Path, tl: Path, top: bool)
    requires fl != [] && forall i :: 0 <= i < |fl| ==> !IsWild(fl[i])
    ensures Retrieves(fl, tl, top) <==> tl == fl
    decreases fl
  {
    if tl != [] && |fl| > 1 {
      LiteralRetrieves(fl[1..], tl[1..], false);
      assert tl == [tl[0]] + tl[1..] && fl == [fl[0]] + fl[1..];
    }
  }

  // ---------------------------------------------------------------- filters as strings

  ghost predicate Lacks(s: string, c: char) { forall i :: 0 <= i < |s| ==> s[i] != c }

  /** `IsValidFilter`. */
  predicate IsValidFilter(filter: string, forPublish: bool) {
    var hash, level, group := IndexOf(filter, '#'), Isolate(filter, 0), Isolate(filter, 1);
    && (forPublish || filter != "")
    && !(forPublish && (IsSysTopic(filter) || IndexOf(filter, '+') >= 0 || hash >= 0))
    && (hash == -1 || hash == |filter| - 1)
    && (IsSharePrefix(level.0) ==> level.1 && group.1 && IndexOf(group.0, '+') == -1 && IndexOf(group.0, '#') == -1)
  }

  predicate IsSysTopic(filter: string) {
    |filter| >= 4 && filter[0] == '$' && filter[1] in "Ss" && filter[2] in "Yy" && filter[3] in "Ss"
  }

  /** A character that a string lacks is in none of its levels. */
  lemma {:induction false} LevelsLack(s: string, c: char)
    requires Lacks(s, c)
    ensures forall k :: 0 <= k < |Split(s)| ==> Lacks(Split(s)[k], c)
    decreases |s|
  {
    SplitStep(s);
    var i := IndexOf(s, '/');
    if i >= 0 {
      LevelsLack(s[i + 1..], c);
      forall k | 0 <= k < |Split(s)| ensures Lacks(Split(s)[k], c) {
        assert k > 0 ==> Split(s)[k] == Split(s)[1..][k - 1];
      }
    }
  }

  /** A valid filter has `#` in no level but its last. */
  lemma {:induction false} ValidFilterLevels(s: string)
    requires IndexOf(s, '#') == -1 || IndexOf(s, '#') == |s| - 1
    ensures HashOnlyLast(Split(s))
    decreases |s|
  {
    IndexOfIsFirst(s, '#');
    SplitStep(s);
    var i := IndexOf(s, '/');
    if i >= 0 {
      var rest := s[i + 1..];
      IndexOfIsFirst(rest, '#');
      assert forall j :: 0 <= j < |rest| ==> rest[j] == s[i + 1 + j];
      ValidFilterLevels(rest);
      assert HASH[0] == '#';
      forall k | 0 <= k < |Split(s)| - 1 ensures Split(s)[k] != HASH {
        assert k > 0 ==> Split(s)[k] == Split(s)[1..][k - 1];
        assert i > 0 ==> s[..i][0] == s[0];
      }
    }
  }

  /** Which filters may be subscribed to: not the empty one, none with `#` anywhere but at its
      end, and a shared one only with a group free of wildcards and a filter behind it. */
  lemma ValidFilters(filter: string)
    ensures IsValidFilter(filter, false) <==>
              && filter != "" && (forall i :: 0 <= i < |filter| - 1 ==> filter[i] != '#')
              && (IsSharePrefix(Split(filter)[0]) ==>
                    |Split(filter)| >= 3 && Lacks(Split(filter)[1], '+') && Lacks(Split(filter)[1], '#'))
  {
    IndexOfIsFirst(filter, '#');
    if |Split(filter)| >= 2 {
      IndexOfIsFirst(Split(filter)[1], '+');
      IndexOfIsFirst(Split(filter)[1], '#');
    }
  }

  /** Which topics may be published to: those without wildcards that do not start with `$SYS`,
      and none that a subscriber would read as shared without a group or filter. */
  lemma ValidTopics(topic: string)
    ensures IsValidFilter(topic, true) <==>
              && Lacks(topic, '+') && Lacks(topic, '#')
              && !(|topic| >= 4 && topic[0] == '$' && topic[1] in ['S', 's'] && topic[2] in ['Y', 'y'] && topic[3] in ['S', 's'])
              && (IsSharePrefix(Split(topic)[0]) ==> |Split(topic)| >= 3)
  {
    IndexOfIsFirst(topic, '#');
    IndexOfIsFirst(topic, '+');
    if Lacks(topic, '+') && Lacks(topic, '#') {
      LevelsLack(topic, '+');
      LevelsLack(topic, '#');
    }
  }

  lemma ValidTopicLevels(topic: string)
    requires IsValidFilter(topic, true)
    ensures IsTopicName(Split(topic))
  {
    IndexOfIsFirst(topic, '#');
    IndexOfIsFirst(topic, '+');
    LevelsLack(topic, '#');
    LevelsLack(topic, '+');
    assert HASH[0] == '#' && PLUS[0] == '+';
    assert forall k :: 0 <= k < |Split(topic)| ==> Lacks(Split(topic)[k], '#') && Lacks(Split(topic)[k], '+');
  }

  /** For every valid filter, shared or not, and publishable topic: which of the two scans
      find each other's. A shared filter lives in the index without its prefix and group. */
  lemma ValidFilterMatching(filter: string, topic: string)
    requires IsValidFilter(filter, false) && IsValidFilter(topic, true)
    ensures var fl, tl := PlaceOf(filter).path, Split(topic);
            Reaches(fl, tl) <==> Standard(fl, tl) && !PlusHashAtParent(fl, tl)
    ensures var fl, tl := Split(filter), Split(topic);
            Retrieves(fl, tl, true) <==> Standard(fl, tl) && |fl| <= |tl| && !((fl[0] == "#" || fl[0] == "+") && tl[0] == "$SYS")
  {
    ValidFilterLevels(filter);
    ValidTopicLevels(topic);
    var ls, fl := Split(filter), PlaceOf(filter).path;
    assert fl == (if IsSharedFilter(filter) then ls[2..] else ls[0..]);
    ScanMeetsStandard(fl, Split(topic));
    RetainedScanMeetsStandard(ls, Split(topic), true);
  }
}
