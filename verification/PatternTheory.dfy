/** What the matcher finds: for patterns without groups, the first repetition counts that fit; for
    all patterns, captures that lie within the match and leave earlier captures alone. */
module PatternTheory {
  import opened Syntax
  import opened Patterns

  // ---- captures ----------------------------------------------------------------------------

  /** A group that the matcher has entered: where it opens in the pattern, what it captured, and the
      groups that were entered inside it. */
  datatype Group = Group(at: nat, capture: Capture, inside: seq<Group>)

  /** The groups entered by a match, in the order of the pattern. */
  function Entered(s: string, i: nat, p: string, c: nat, e: nat, caps: seq<Capture>): seq<Group>
    requires i <= |s| && e <= |p| && MatchRange(s, i, p, c, e, caps).Matched?
    decreases e - c, 1
  {
    if c >= e || (p[c] == '$' && c + 1 == e) then []
    else if p[c] == '(' then
      var close, open := CloseFrom(p, c + 1, e, 1).value, caps + [Capture(i, 0)];
      var m := MatchRange(s, i, p, c + 1, close, open);
      [Group(c, Capture(i, m.end), Entered(s, i, p, c + 1, close, open))]
      + Entered(s, m.end, p, close + 1, e, m.captures[|caps| := Capture(i, m.end)])
    else
      var h, n := SeenEnd(s, i, p, c, e).value, Extent(s, i, p, c, e);
      var q := QuantifierAt(p, h, e);
      if q == One then Entered(s, i + 1, p, h, e, caps)
      else if q == Lazy then EnteredUp(s, i, p, h + 1, e, caps, Least(q), Most(q, n))
      else EnteredDown(s, i, p, h + 1, e, caps, Least(q), Most(q, n))
  }

  function EnteredUp(s: string, i: nat, p: string, c: nat, e: nat, caps: seq<Capture>, n: nat, most: nat): seq<Group>
    requires i + most <= |s| && e <= |p| && TryUp(s, i, p, c, e, caps, n, most).Matched?
    decreases e - c, 2, most - n
  {
    if MatchRange(s, i + n, p, c, e, caps).Matched? then Entered(s, i + n, p, c, e, caps)
    else EnteredUp(s, i, p, c, e, caps, n + 1, most)
  }

  function EnteredDown(s: string, i: nat, p: string, c: nat, e: nat, caps: seq<Capture>, least: nat, n: nat): seq<Group>
    requires i + n <= |s| && e <= |p| && TryDown(s, i, p, c, e, caps, least, n).Matched?
    decreases e - c, 2, n
  {
    if MatchRange(s, i + n, p, c, e, caps).Matched? then Entered(s, i + n, p, c, e, caps)
    else EnteredDown(s, i, p, c, e, caps, least, n - 1)
  }

  /** What groups captured, a group before the groups inside it and those before the groups after it. */
  function Listing(gs: seq<Group>): seq<Capture>
    decreases gs, 0
  {
    if gs == [] then [] else ListingOf(gs[0]) + Listing(gs[1..])
  }

  function ListingOf(g: Group): seq<Capture>
    decreases g, 1
  {
    [g.capture] + Listing(g.inside)
  }

  /** The groups captured one after the other between i and j, each around those inside it. */
  predicate Nested(gs: seq<Group>, i: nat, j: nat)
    decreases gs, 0
  {
    if gs == [] then i <= j else i <= gs[0].capture.start && NestedIn(gs[0]) && Nested(gs[1..], gs[0].capture.end, j)
  }

  predicate NestedIn(g: Group)
    decreases g, 1
  {
    Nested(g.inside, g.capture.start, g.capture.end)
  }

  /** They are groups of p[c..e], in the order in which the pattern opens them. */
  predicate Opened(gs: seq<Group>, p: string, c: nat, e: nat)
    requires e <= |p|
    decreases gs, 0
  {
    gs == [] || (
      && c <= gs[0].at < e && p[gs[0].at] == '(' && CloseFrom(p, gs[0].at + 1, e, 1).Some?
      && OpenedIn(gs[0], p, CloseFrom(p, gs[0].at + 1, e, 1).value)
      && Opened(gs[1..], p, CloseFrom(p, gs[0].at + 1, e, 1).value + 1, e))
  }

  predicate OpenedIn(g: Group, p: string, close: nat)
    requires close <= |p|
    decreases g, 1
  {
    Opened(g.inside, p, g.at + 1, close)
  }

  /** Everything about the groups a match has entered: they are groups of the pattern in its order,
      nested as they are in the pattern, and the captures are what they captured, in that order,
      after the captures there were. */
  ghost predicate Captures(m: Match, i: nat, p: string, c: nat, e: nat, caps: seq<Capture>, gs: seq<Group>)
    requires e <= |p|
  {
    && m.Matched? && m.captures == caps + Listing(gs) && Nested(gs, i, m.end) && Opened(gs, p, c, e)
    && (|caps| <= CAPTURE_LIMIT ==> |m.captures| <= CAPTURE_LIMIT)
  }

  /** Every match, with any pattern, captures exactly what the groups it entered captured. */
  lemma {:induction false} CapturesAreGroups(s: string, i: nat, p: string, c: nat, e: nat, caps: seq<Capture>)
    requires i <= |s| && e <= |p| && MatchRange(s, i, p, c, e, caps).Matched?
    ensures Captures(MatchRange(s, i, p, c, e, caps), i, p, c, e, caps, Entered(s, i, p, c, e, caps))
    decreases e - c, 1
  {
    hide Captures, SeenEnd, Extent, CloseFrom, TryUp, TryDown, EnteredUp, EnteredDown;
    if c >= e || (p[c] == '$' && c + 1 == e) {
      NoGroups(i, p, c, e, caps);
    } else if p[c] == '(' {
      var close, open := CloseFrom(p, c + 1, e, 1).value, caps + [Capture(i, 0)];
      var m := MatchRange(s, i, p, c + 1, close, open);
      CapturesAreGroups(s, i, p, c + 1, close, open);
      var closed := m.captures[|caps| := Capture(i, m.end)];
      CapturesAreGroups(s, m.end, p, close + 1, e, closed);
      GroupBefore(m, i, p, c, e, caps, Entered(s, i, p, c + 1, close, open),
                  MatchRange(s, m.end, p, close + 1, e, closed), Entered(s, m.end, p, close + 1, e, closed));
    } else {
      var h, n := SeenEnd(s, i, p, c, e).value, Extent(s, i, p, c, e);
      var q := QuantifierAt(p, h, e);
      if q == One {
        CapturesAreGroups(s, i + 1, p, h, e, caps);
        ItemBefore(MatchRange(s, i + 1, p, h, e, caps), i, i + 1, p, c, h, e, caps, Entered(s, i + 1, p, h, e, caps));
      } else if q == Lazy {
        UpGroups(s, i, p, h + 1, e, caps, Least(q), Most(q, n));
        ItemBefore(TryUp(s, i, p, h + 1, e, caps, Least(q), Most(q, n)), i, i, p, c, h + 1, e, caps,
                   EnteredUp(s, i, p, h + 1, e, caps, Least(q), Most(q, n)));
      } else {
        DownGroups(s, i, p, h + 1, e, caps, Least(q), Most(q, n));
        ItemBefore(TryDown(s, i, p, h + 1, e, caps, Least(q), Most(q, n)), i, i, p, c, h + 1, e, caps,
                   EnteredDown(s, i, p, h + 1, e, caps, Least(q), Most(q, n)));
      }
    }
  }

  lemma NoGroups(i: nat, p: string, c: nat, e: nat, caps: seq<Capture>)
    requires e <= |p|
    ensures Captures(Matched(i, caps), i, p, c, e, caps, [])
  {
  }

  /** The same groups are found from an earlier position of subject and pattern on. */
  lemma ItemBefore(m: Match, i: nat, i': nat, p: string, c: nat, c': nat, e: nat, caps: seq<Capture>, gs: seq<Group>)
    requires e <= |p| && Captures(m, i', p, c', e, caps, gs) && i <= i' && c <= c'
    ensures Captures(m, i, p, c, e, caps, gs)
  {
  }

  /** A group and what was entered inside it, followed by what was entered after it. */
  lemma GroupBefore(m: Match, i: nat, p: string, c: nat, e: nat, caps: seq<Capture>, inside: seq<Group>, m': Match, after: seq<Group>)
    requires c < e <= |p| && p[c] == '(' && CloseFrom(p, c + 1, e, 1).Some? && |caps| < CAPTURE_LIMIT
    requires Captures(m, i, p, c + 1, CloseFrom(p, c + 1, e, 1).value, caps + [Capture(i, 0)], inside)
    requires var close := CloseFrom(p, c + 1, e, 1).value;
      Captures(m', m.end, p, close + 1, e, m.captures[|caps| := Capture(i, m.end)], after)
    ensures Captures(m', i, p, c, e, caps, [Group(c, Capture(i, m.end), inside)] + after)
  {
    hide CloseFrom;
    var g := Group(c, Capture(i, m.end), inside);
    var gs := [g] + after;
    assert gs[0] == g && gs[1..] == after;
    assert m.captures[|caps| := Capture(i, m.end)] == caps + ListingOf(g);
    assert Listing(gs) == ListingOf(g) + Listing(after);
    assert caps + ListingOf(g) + Listing(after) == caps + (ListingOf(g) + Listing(after));
    assert NestedIn(g) && Nested(gs, i, m'.end);
    assert OpenedIn(g, p, CloseFrom(p, c + 1, e, 1).value);
    assert Opened(gs, p, c, e);
  }

  lemma {:induction false} UpGroups(s: string, i: nat, p: string, c: nat, e: nat, caps: seq<Capture>, n: nat, most: nat)
    requires i + most <= |s| && e <= |p| && TryUp(s, i, p, c, e, caps, n, most).Matched?
    ensures Captures(TryUp(s, i, p, c, e, caps, n, most), i, p, c, e, caps, EnteredUp(s, i, p, c, e, caps, n, most))
    decreases e - c, 2, most - n
  {
    hide Captures, MatchRange, Entered;
    var m := MatchRange(s, i + n, p, c, e, caps);
    if m.Matched? {
      CapturesAreGroups(s, i + n, p, c, e, caps);
      ItemBefore(m, i, i + n, p, c, c, e, caps, Entered(s, i + n, p, c, e, caps));
    } else {
      UpGroups(s, i, p, c, e, caps, n + 1, most);
    }
  }

  lemma {:induction false} DownGroups(s: string, i: nat, p: string, c: nat, e: nat, caps: seq<Capture>, least: nat, n: nat)
    requires i + n <= |s| && e <= |p| && TryDown(s, i, p, c, e, caps, least, n).Matched?
    ensures Captures(TryDown(s, i, p, c, e, caps, least, n), i, p, c, e, caps, EnteredDown(s, i, p, c, e, caps, least, n))
    decreases e - c, 2, n
  {
    hide Captures, MatchRange, Entered;
    var m := MatchRange(s, i + n, p, c, e, caps);
    if m.Matched? {
      CapturesAreGroups(s, i + n, p, c, e, caps);
      ItemBefore(m, i, i + n, p, c, c, e, caps, Entered(s, i + n, p, c, e, caps));
    } else {
      DownGroups(s, i, p, c, e, caps, least, n - 1);
    }
  }

  /** Each group is matched by the first match of its inside where it begins: the matcher commits to
      that, whatever comes after. */
  ghost predicate Commits(s: string, p: string, e: nat, caps: seq<Capture>, gs: seq<Group>)
    requires e <= |p|
    decreases gs, 0
  {
    gs == [] || (
      && CloseFrom(p, gs[0].at + 1, e, 1).Some? && CommitsIn(s, p, CloseFrom(p, gs[0].at + 1, e, 1).value, caps, gs[0])
      && Commits(s, p, e, caps + ListingOf(gs[0]), gs[1..]))
  }

  ghost predicate CommitsIn(s: string, p: string, close: nat, caps: seq<Capture>, g: Group)
    requires close <= |p|
    decreases g, 1
  {
    var open := caps + [Capture(g.capture.start, 0)];
    && g.capture.start <= |s|
    && MatchRange(s, g.capture.start, p, g.at + 1, close, open) == Matched(g.capture.end, open + Listing(g.inside))
    && Commits(s, p, close, open, g.inside)
  }

  lemma {:induction false} GroupsCommit(s: string, i: nat, p: string, c: nat, e: nat, caps: seq<Capture>)
    requires i <= |s| && e <= |p| && MatchRange(s, i, p, c, e, caps).Matched?
    ensures Commits(s, p, e, caps, Entered(s, i, p, c, e, caps))
    decreases e - c, 1
  {
    hide Commits, SeenEnd, Extent, CloseFrom, TryUp, TryDown, EnteredUp, EnteredDown, QuantifierAt, Nested, Opened, Listing;
    if c >= e || (p[c] == '$' && c + 1 == e) {
      NothingCommits(s, p, e, caps);
    } else if p[c] == '(' {
      var close, open := CloseFrom(p, c + 1, e, 1).value, caps + [Capture(i, 0)];
      var m := MatchRange(s, i, p, c + 1, close, open);
      GroupsCommit(s, i, p, c + 1, close, open);
      CapturesAreGroups(s, i, p, c + 1, close, open);
      var g, closed := Group(c, Capture(i, m.end), Entered(s, i, p, c + 1, close, open)), m.captures[|caps| := Capture(i, m.end)];
      GroupsCommit(s, m.end, p, close + 1, e, closed);
      Closed(caps, g, m.captures);
      GroupCommits(s, p, e, caps, g, Entered(s, m.end, p, close + 1, e, closed));
    } else {
      var h, n := SeenEnd(s, i, p, c, e).value, Extent(s, i, p, c, e);
      var q := QuantifierAt(p, h, e);
      if q == One {
        GroupsCommit(s, i + 1, p, h, e, caps);
      } else if q == Lazy {
        UpCommits(s, i, p, h + 1, e, caps, Least(q), Most(q, n));
      } else {
        DownCommits(s, i, p, h + 1, e, caps, Least(q), Most(q, n));
      }
    }
  }

  lemma Closed(caps: seq<Capture>, g: Group, inner: seq<Capture>)
    requires inner == caps + [Capture(g.capture.start, 0)] + Listing(g.inside)
    ensures |caps| < |inner| && inner[|caps| := g.capture] == caps + ListingOf(g)
  {
  }

  lemma NothingCommits(s: string, p: string, e: nat, caps: seq<Capture>)
    requires e <= |p|
    ensures Commits(s, p, e, caps, [])
  {
  }

  lemma GroupCommits(s: string, p: string, e: nat, caps: seq<Capture>, g: Group, after: seq<Group>)
    requires e <= |p| && CloseFrom(p, g.at + 1, e, 1).Some? && CommitsIn(s, p, CloseFrom(p, g.at + 1, e, 1).value, caps, g)
    requires Commits(s, p, e, caps + ListingOf(g), after)
    ensures Commits(s, p, e, caps, [g] + after)
  {
    hide CommitsIn;
    assert ([g] + after)[1..] == after;
  }

  lemma {:induction false} UpCommits(s: string, i: nat, p: string, c: nat, e: nat, caps: seq<Capture>, n: nat, most: nat)
    requires i + most <= |s| && e <= |p| && TryUp(s, i, p, c, e, caps, n, most).Matched?
    ensures Commits(s, p, e, caps, EnteredUp(s, i, p, c, e, caps, n, most))
    decreases e - c, 2, most - n
  {
    hide Commits, MatchRange, Entered;
    if MatchRange(s, i + n, p, c, e, caps).Matched? {
      GroupsCommit(s, i + n, p, c, e, caps);
    } else {
      UpCommits(s, i, p, c, e, caps, n + 1, most);
    }
  }

  lemma {:induction false} DownCommits(s: string, i: nat, p: string, c: nat, e: nat, caps: seq<Capture>, least: nat, n: nat)
    requires i + n <= |s| && e <= |p| && TryDown(s, i, p, c, e, caps, least, n).Matched?
    ensures Commits(s, p, e, caps, EnteredDown(s, i, p, c, e, caps, least, n))
    decreases e - c, 2, n
  {
    hide Commits, MatchRange, Entered;
    if MatchRange(s, i + n, p, c, e, caps).Matched? {
      GroupsCommit(s, i + n, p, c, e, caps);
    } else {
      DownCommits(s, i, p, c, e, caps, least, n - 1);
    }
  }

  /** Captures made between positions i and j, after the ones in caps: in the order in which they
      begin, and any two either one inside the other or one after the other. */
  predicate CapturesWithin(caps: seq<Capture>, caps': seq<Capture>, i: nat, j: nat) {
    && |caps| <= |caps'| && caps'[..|caps|] == caps
    && (forall k :: |caps| <= k < |caps'| ==> i <= caps'[k].start <= caps'[k].end <= j)
    && (forall k, n :: |caps| <= k < n < |caps'| ==> Arranged(caps'[k], caps'[n]))
    && (|caps| <= CAPTURE_LIMIT ==> |caps'| <= CAPTURE_LIMIT)
  }

  predicate Arranged(a: Capture, b: Capture) {
    a.start <= b.start && (a.end <= b.start || b.end <= a.end)
  }

  ghost predicate InOrder(cs: seq<Capture>, i: nat, j: nat) {
    && (forall k :: 0 <= k < |cs| ==> i <= cs[k].start <= cs[k].end <= j)
    && (forall k, n :: 0 <= k < n < |cs| ==> Arranged(cs[k], cs[n]))
  }

  lemma {:induction false} ListingInOrder(gs: seq<Group>, i: nat, j: nat)
    requires Nested(gs, i, j)
    ensures i <= j && InOrder(Listing(gs), i, j)
    decreases gs, 0
  {
    hide InOrder;
    if gs == [] {
      NoneInOrder(i, j);
    } else {
      var g := gs[0];
      GroupInOrder(g);
      ListingInOrder(gs[1..], g.capture.end, j);
      Appended(ListingOf(g), Listing(gs[1..]), i, g.capture.start, g.capture.end, j);
    }
  }

  lemma {:induction false} GroupInOrder(g: Group)
    requires NestedIn(g)
    ensures g.capture.start <= g.capture.end && InOrder(ListingOf(g), g.capture.start, g.capture.end)
    decreases g, 1
  {
    ListingInOrder(g.inside, g.capture.start, g.capture.end);
  }

  lemma NoneInOrder(i: nat, j: nat)
    ensures InOrder([], i, j)
  {
  }

  lemma Appended(a: seq<Capture>, b: seq<Capture>, i: nat, from: nat, mid: nat, j: nat)
    requires i <= from <= mid <= j && InOrder(a, from, mid) && InOrder(b, mid, j)
    ensures InOrder(a + b, i, j)
  {
  }

  /** Every match ends within the subject, leaves earlier captures as they were, and each capture it
      adds lies within it; captures are in order and nest; there are never more than the limit. */
  lemma CapturesKept(s: string, i: nat, p: string, c: nat, e: nat, caps: seq<Capture>)
    requires i <= |s| && e <= |p| && MatchRange(s, i, p, c, e, caps).Matched?
    ensures var m := MatchRange(s, i, p, c, e, caps); CapturesWithin(caps, m.captures, i, m.end)
  {
    hide MatchRange, Entered, Listing, Nested, Opened, Arranged;
    var gs := Entered(s, i, p, c, e, caps);
    CapturesAreGroups(s, i, p, c, e, caps);
    ListingInOrder(gs, i, MatchRange(s, i, p, c, e, caps).end);
  }

  /** Where a group opens, and the groups inside it. */
  datatype Place = Place(at: nat, inside: seq<Place>)

  /** The groups of p[c..e]. */
  function GroupsOf(p: string, c: nat, e: nat): seq<Place>
    requires e <= |p|
    decreases e - c
  {
    if c >= e || (p[c] == '$' && c + 1 == e) then []
    else if p[c] == '(' then
      var close := CloseFrom(p, c + 1, e, 1);
      if close.None? then []
      else [Place(c, GroupsOf(p, c + 1, close.value))] + GroupsOf(p, close.value + 1, e)
    else if AtomEnd(p, c, e).None? then []
    else GroupsOf(p, After(p, AtomEnd(p, c, e).value, e), e)
  }

  function Places(gs: seq<Group>): seq<Place>
    decreases gs, 0
  {
    if gs == [] then [] else [PlaceOf(gs[0])] + Places(gs[1..])
  }

  function PlaceOf(g: Group): Place
    decreases g, 1
  {
    Place(g.at, Places(g.inside))
  }

  /** No set, in a group or outside, can be misread. */
  predicate WellReadGroups(p: string, c: nat, e: nat)
    requires e <= |p|
    decreases e - c
  {
    if c >= e || (p[c] == '$' && c + 1 == e) then true
    else if p[c] == '(' then
      var close := CloseFrom(p, c + 1, e, 1);
      close.Some? ==> WellReadGroups(p, c + 1, close.value) && WellReadGroups(p, close.value + 1, e)
    else
      AtomEnd(p, c, e).Some? ==> !Misread(p, c, e) && WellReadGroups(p, After(p, AtomEnd(p, c, e).value, e), e)
  }

  /** A match of a pattern without misread sets enters every group of the pattern, so its captures
      are those of the groups, one for each, in the order in which the pattern opens them. */
  lemma {:induction false} CaptureForEachGroup(s: string, i: nat, p: string, c: nat, e: nat, caps: seq<Capture>)
    requires i <= |s| && e <= |p| && WellReadGroups(p, c, e) && MatchRange(s, i, p, c, e, caps).Matched?
    ensures Places(Entered(s, i, p, c, e, caps)) == GroupsOf(p, c, e)
    ensures MatchRange(s, i, p, c, e, caps).captures == caps + Listing(Entered(s, i, p, c, e, caps))
    decreases e - c, 1
  {
    hide SeenEnd, Extent, CloseFrom, AtomEnd, Accepts, Listing, TryUp, TryDown, EnteredUp, EnteredDown, Misread, QuantifierAt;
    CapturesAreGroups(s, i, p, c, e, caps);
    if c >= e || (p[c] == '$' && c + 1 == e) {
    } else if p[c] == '(' {
      var close, open := CloseFrom(p, c + 1, e, 1).value, caps + [Capture(i, 0)];
      var m := MatchRange(s, i, p, c + 1, close, open);
      CaptureForEachGroup(s, i, p, c + 1, close, open);
      CaptureForEachGroup(s, m.end, p, close + 1, e, m.captures[|caps| := Capture(i, m.end)]);
    } else {
      ItemCaptures(s, i, p, c, e, caps);
    }
  }

  /** An item without a group adds nothing to the groups entered after it. */
  lemma {:induction false} ItemCaptures(s: string, i: nat, p: string, c: nat, e: nat, caps: seq<Capture>)
    requires i <= |s| && c < e <= |p| && p[c] != '(' && !(p[c] == '$' && c + 1 == e)
    requires WellReadGroups(p, c, e) && MatchRange(s, i, p, c, e, caps).Matched?
    ensures Places(Entered(s, i, p, c, e, caps)) == GroupsOf(p, c, e)
    decreases e - c, 0
  {
    hide SeenEnd, Extent, CloseFrom, AtomEnd, Accepts, TryUp, TryDown, EnteredUp, EnteredDown, Misread, QuantifierAt, Places;
    MatchedByWidth(s, i, p, c, e, caps);
    var h, n := AtomEnd(p, c, e).value, Extent(s, i, p, c, e);
    var q := QuantifierAt(p, h, e);
    if q == One {
      CaptureForEachGroup(s, i + 1, p, h, e, caps);
    } else if q == Lazy {
      UpCaptures(s, i, p, h + 1, e, caps, Least(q), Most(q, n));
    } else {
      DownCaptures(s, i, p, h + 1, e, caps, Least(q), Most(q, n));
    }
  }

  /** An item that cannot be misread and does not fail is seen by its true width. */
  lemma MatchedByWidth(s: string, i: nat, p: string, c: nat, e: nat, caps: seq<Capture>)
    requires i <= |s| && c < e <= |p| && p[c] != '(' && !(p[c] == '$' && c + 1 == e) && (AtomEnd(p, c, e).Some? ==> !Misread(p, c, e))
    requires MatchRange(s, i, p, c, e, caps).Matched?
    ensures AtomEnd(p, c, e).Some? && SeenEnd(s, i, p, c, e) == AtomEnd(p, c, e)
  {
    hide TryUp, TryDown;
    StepIsTrue(s, i, p, c, e, caps);
    WidthSeen(s, i, p, c, e);
  }

  lemma {:induction false} UpCaptures(s: string, i: nat, p: string, c: nat, e: nat, caps: seq<Capture>, n: nat, most: nat)
    requires i + most <= |s| && e <= |p| && WellReadGroups(p, c, e) && TryUp(s, i, p, c, e, caps, n, most).Matched?
    ensures Places(EnteredUp(s, i, p, c, e, caps, n, most)) == GroupsOf(p, c, e)
    decreases e - c, 2, most - n
  {
    hide MatchRange, GroupsOf, Places, Entered, WellReadGroups;
    if MatchRange(s, i + n, p, c, e, caps).Matched? {
      CaptureForEachGroup(s, i + n, p, c, e, caps);
    } else {
      UpCaptures(s, i, p, c, e, caps, n + 1, most);
    }
  }

  lemma {:induction false} DownCaptures(s: string, i: nat, p: string, c: nat, e: nat, caps: seq<Capture>, least: nat, n: nat)
    requires i + n <= |s| && e <= |p| && WellReadGroups(p, c, e) && TryDown(s, i, p, c, e, caps, least, n).Matched?
    ensures Places(EnteredDown(s, i, p, c, e, caps, least, n)) == GroupsOf(p, c, e)
    decreases e - c, 2, n
  {
    hide MatchRange, GroupsOf, Places, Entered, WellReadGroups;
    if MatchRange(s, i + n, p, c, e, caps).Matched? {
      CaptureForEachGroup(s, i + n, p, c, e, caps);
    } else {
      DownCaptures(s, i, p, c, e, caps, least, n - 1);
    }
  }

  // ---- the declarative meaning of a pattern without groups ---------------------------------

  /** A single-byte item and how often it may be repeated. */
  datatype Repeat = Repeat(at: nat, q: Quantifier)

  /** A pattern without groups: its items, and whether it must reach the end of the subject. */
  datatype Plan = Plan(items: seq<Repeat>, atEnd: bool)

  /** Where the item after the one at c begins. */
  function After(p: string, h: nat, e: nat): nat
    requires e <= |p|
  {
    if QuantifierAt(p, h, e) == One then h else h + 1
  }

  /** The items of p[c..e]; a pattern that is not a list of complete items has none. */
  function PlanOf(p: string, c: nat, e: nat): Option<Plan>
    requires e <= |p|
    decreases e - c
  {
    if c >= e then Some(Plan([], false))
    else if p[c] == '$' && c + 1 == e then Some(Plan([], true))
    else if p[c] == '(' || AtomEnd(p, c, e).None? then None
    else
      var h := AtomEnd(p, c, e).value;
      var rest := PlanOf(p, After(p, h, e), e);
      if rest.None? then None else Some(Plan([Repeat(c, QuantifierAt(p, h, e))] + rest.value.items, rest.value.atEnd))
  }

  predicate GroupFree(p: string, c: nat, e: nat)
    requires e <= |p|
    decreases e - c
  {
    c >= e || (p[c] == '$' && c + 1 == e)
    || (p[c] != '(' && (AtomEnd(p, c, e).Some? ==> GroupFree(p, After(p, AtomEnd(p, c, e).value, e), e)))
  }

  /** A set whose width the matcher may get wrong: it accepts byte 0, and either it may be left out
      or the byte after its opening bracket would be taken for a quantifier. */
  predicate Misread(p: string, c: nat, e: nat)
    requires c < e <= |p|
  {
    && p[c] == '[' && AtomEnd(p, c, e).Some? && Accepts('\0', p, c, e)
    && (Least(QuantifierAt(p, AtomEnd(p, c, e).value, e)) == 0 || Least(QuantifierAt(p, c + 1, e)) == 0)
  }

  /** No set of the pattern can be misread. */
  predicate WellRead(p: string, c: nat, e: nat)
    requires e <= |p|
    decreases e - c
  {
    c >= e || AtomEnd(p, c, e).None?
    || (!Misread(p, c, e) && WellRead(p, After(p, AtomEnd(p, c, e).value, e), e))
  }

  predicate Allowed(q: Quantifier, n: nat) { Least(q) <= n && (q == One || q == Maybe ==> n <= 1) }

  /** The counts say how often each item is repeated: each repetition accepts its byte, and the
      subject ends after the last one if it must. */
  predicate Fits(s: string, i: nat, p: string, e: nat, plan: Plan, counts: seq<nat>)
    requires e <= |p| && forall k :: 0 <= k < |plan.items| ==> plan.items[k].at < e
    decreases plan.items
  {
    |counts| == |plan.items| && i <= |s|
    && if plan.items == [] then plan.atEnd ==> i == |s|
       else
         var item, n := plan.items[0], counts[0];
         && Allowed(item.q, n) && i + n <= |s|
         && (forall k :: i <= k < i + n ==> Accepts(s[k], p, item.at, e))
         && Fits(s, i + n, p, e, plan.(items := plan.items[1..]), counts[1..])
  }

  function Sum(counts: seq<nat>): nat { if counts == [] then 0 else counts[0] + Sum(counts[1..]) }

  /** At the first item where the counts differ, a is the one its quantifier tries first: fewer for
      a lazy one, more for the others. */
  predicate Prefers(items: seq<Repeat>, a: seq<nat>, b: seq<nat>)
    decreases items
  {
    items == [] || a == [] || b == []
    || if a[0] == b[0] then Prefers(items[1..], a[1..], b[1..])
       else if items[0].q == Lazy then a[0] < b[0]
       else b[0] < a[0]
  }

  lemma {:induction false} PlanInside(p: string, c: nat, e: nat)
    requires e <= |p| && PlanOf(p, c, e).Some?
    ensures forall k :: 0 <= k < |PlanOf(p, c, e).value.items| ==> c <= PlanOf(p, c, e).value.items[k].at < e
    decreases e - c
  {
    if c < e && !(p[c] == '$' && c + 1 == e) {
      PlanInside(p, After(p, AtomEnd(p, c, e).value, e), e);
    }
  }

  /** The matcher sees an item's true width unless the item does not accept the next byte and is a
      set that accepts byte 0, or is a dangling `%`. */
  lemma WidthSeen(s: string, i: nat, p: string, c: nat, e: nat)
    requires i <= |s| && c < e <= |p|
    ensures SeenEnd(s, i, p, c, e) == AtomEnd(p, c, e)
       <==> Extent(s, i, p, c, e) > 0 || !((p[c] == '[' && Accepts('\0', p, c, e)) || (p[c] == '%' && c + 1 == e))
  {
    hide InSet, InClass;
    assert Extent(s, i, p, c, e) > 0 ==> i < |s| && Accepts(s[i], p, c, e);
  }

  /** One item by its true width: none if it is incomplete. */
  function TrueStep(s: string, i: nat, p: string, c: nat, e: nat, caps: seq<Capture>): Match
    requires i <= |s| && c < e <= |p|
  {
    var h, n := AtomEnd(p, c, e), Extent(s, i, p, c, e);
    if h.None? then Unmatched
    else
      var q := QuantifierAt(p, h.value, e);
      if q == One then (if n == 0 then Unmatched else MatchRange(s, i + 1, p, h.value, e, caps))
      else if Most(q, n) < Least(q) then Unmatched
      else if q == Lazy then TryUp(s, i, p, h.value + 1, e, caps, Least(q), Most(q, n))
      else TryDown(s, i, p, h.value + 1, e, caps, Least(q), Most(q, n))
  }

  /** An item that is not misread is matched by its true width. */
  lemma StepIsTrue(s: string, i: nat, p: string, c: nat, e: nat, caps: seq<Capture>)
    requires i <= |s| && c < e <= |p| && p[c] != '(' && !(p[c] == '$' && c + 1 == e) && !Misread(p, c, e)
    ensures MatchRange(s, i, p, c, e, caps) == TrueStep(s, i, p, c, e, caps)
  {
    hide InSet, InClass, TryUp, TryDown, ClassEnd;
    WidthSeen(s, i, p, c, e);
  }

  // ---- the first counts that fit -----------------------------------------------------------

  ghost predicate Inside(plan: Plan, e: nat) { forall k :: 0 <= k < |plan.items| ==> plan.items[k].at < e }

  ghost predicate NoneFit(s: string, i: nat, p: string, e: nat, plan: Plan)
    requires e <= |p| && Inside(plan, e)
  {
    forall counts :: !Fits(s, i, p, e, plan, counts)
  }

  /** These counts fit, and their quantifiers try them before any others that fit. */
  ghost predicate FirstFit(s: string, i: nat, p: string, e: nat, plan: Plan, best: seq<nat>)
    requires e <= |p| && Inside(plan, e)
  {
    Fits(s, i, p, e, plan, best) && forall counts :: Fits(s, i, p, e, plan, counts) ==> Prefers(plan.items, best, counts)
  }

  /** m says whether any counts fit, and where the first ones end. */
  ghost predicate Decides(m: Match, s: string, i: nat, p: string, e: nat, plan: Plan, caps: seq<Capture>, best: seq<nat>)
    requires e <= |p| && Inside(plan, e)
  {
    if m.Unmatched? then NoneFit(s, i, p, e, plan)
    else FirstFit(s, i, p, e, plan, best) && m == Matched(i + Sum(best), caps)
  }

  /** m is the match after `count` repetitions, which come first among lo to hi with a match. */
  ghost predicate DecidesAfter(m: Match, s: string, i: nat, p: string, e: nat, rest: Plan, caps: seq<Capture>,
                               lo: nat, hi: nat, lazy: bool, count: nat, best: seq<nat>)
    requires e <= |p| && Inside(rest, e)
  {
    if m.Unmatched? then forall j :: i + lo <= j <= i + hi ==> NoneFit(s, j, p, e, rest)
    else
      && lo <= count <= hi
      && (forall j :: i + lo <= j <= i + hi && (if lazy then j < i + count else i + count < j) ==> NoneFit(s, j, p, e, rest))
      && FirstFit(s, i + count, p, e, rest, best) && m == Matched(i + count + Sum(best), caps)
  }

  /** Counts fit if the first is one the item allows and the subject has, and the others fit after it. */
  lemma FitsSplit(s: string, i: nat, p: string, c: nat, e: nat, q: Quantifier, rest: Plan, counts: seq<nat>)
    requires i <= |s| && c < e <= |p| && Inside(rest, e)
    ensures Inside(Plan([Repeat(c, q)] + rest.items, rest.atEnd), e)
    ensures Fits(s, i, p, e, Plan([Repeat(c, q)] + rest.items, rest.atEnd), counts)
       <==> counts != [] && Least(q) <= counts[0] <= Most(q, Extent(s, i, p, c, e)) && Fits(s, i + counts[0], p, e, rest, counts[1..])
  {
    hide Accepts;
    var plan := Plan([Repeat(c, q)] + rest.items, rest.atEnd);
    assert plan.(items := plan.items[1..]) == rest;
    var n := Extent(s, i, p, c, e);
    if counts != [] && i + counts[0] <= |s| && counts[0] > n {
      assert !Accepts(s[i + n], p, c, e);
    }
  }

  lemma SumSplit(count: nat, best: seq<nat>)
    ensures Sum([count] + best) == count + Sum(best)
  {
    assert ([count] + best)[1..] == best;
  }

  /** Deciding what follows each number of repetitions decides the whole. */
  lemma DecidesWhole(m: Match, s: string, i: nat, p: string, c: nat, e: nat, q: Quantifier, rest: Plan,
                     caps: seq<Capture>, count: nat, best: seq<nat>)
    requires i <= |s| && c < e <= |p| && Inside(rest, e)
    requires DecidesAfter(m, s, i, p, e, rest, caps, Least(q), Most(q, Extent(s, i, p, c, e)), q == Lazy, count, best)
    ensures Inside(Plan([Repeat(c, q)] + rest.items, rest.atEnd), e)
    ensures Decides(m, s, i, p, e, Plan([Repeat(c, q)] + rest.items, rest.atEnd), caps, [count] + best)
  {
    hide Fits, Least, Most, Extent;
    var plan := Plan([Repeat(c, q)] + rest.items, rest.atEnd);
    assert plan.items[1..] == rest.items;
    var all := [count] + best;
    assert all[1..] == best;
    FitsSplit(s, i, p, c, e, q, rest, all);
    SumSplit(count, best);
    forall counts ensures Fits(s, i, p, e, plan, counts) ==> m.Matched? && Prefers(plan.items, all, counts) {
      FitsSplit(s, i, p, c, e, q, rest, counts);
      if Fits(s, i, p, e, plan, counts) {
        assert !NoneFit(s, i + counts[0], p, e, rest);
      }
    }
  }

  /** A pattern without groups or misread sets matches exactly if some counts fit, and the match is
      that of the first counts in the order their quantifiers try them. A pattern with an
      incomplete item never matches. */
  lemma {:induction false} MatchDecides(s: string, i: nat, p: string, c: nat, e: nat, caps: seq<Capture>) returns (best: seq<nat>)
    requires i <= |s| && e <= |p| && GroupFree(p, c, e) && WellRead(p, c, e)
    ensures PlanOf(p, c, e).None? ==> MatchRange(s, i, p, c, e, caps).Unmatched?
    ensures PlanOf(p, c, e).Some? ==>
      Inside(PlanOf(p, c, e).value, e)
      && Decides(MatchRange(s, i, p, c, e, caps), s, i, p, e, PlanOf(p, c, e).value, caps, best)
    decreases e - c, 1
  {
    hide DecidesAfter, Decides, Inside, AtomEnd, Extent, Least, SeenEnd, Accepts;
    best := [];
    if c >= e || (p[c] == '$' && c + 1 == e) {
      EmptyDecides(s, i, p, c, e, caps);
    } else {
      StepIsTrue(s, i, p, c, e, caps);
      var h := AtomEnd(p, c, e);
      if h.Some? {
        var q, n := QuantifierAt(p, h.value, e), Extent(s, i, p, c, e);
        var next := After(p, h.value, e);
        var rest := PlanOf(p, next, e);
        var count := 1;
        if q == One {
          count, best := OneDecides(s, i, p, c, next, e, caps);
        } else if Most(q, n) < Least(q) {
          if rest.Some? {
            PlanInside(p, next, e);
            InsideAgain(rest.value, e);
            TooFew(s, i, p, e, rest.value, caps, Least(q), Most(q, n), q == Lazy, count, best);
          }
        } else if q == Lazy {
          count, best := UpDecides(s, i, p, next, e, caps, Least(q), Most(q, n));
        } else {
          count, best := DownDecides(s, i, p, next, e, caps, Least(q), Most(q, n));
        }
        if rest.Some? {
          DecidesWhole(MatchRange(s, i, p, c, e, caps), s, i, p, c, e, q, rest.value, caps, count, best);
        }
        best := [count] + best;
      }
    }
  }

  lemma InsideAgain(plan: Plan, e: nat)
    requires forall k :: 0 <= k < |plan.items| ==> plan.items[k].at < e
    ensures Inside(plan, e)
  {
  }

  lemma EmptyDecides(s: string, i: nat, p: string, c: nat, e: nat, caps: seq<Capture>)
    requires i <= |s| && e <= |p| && (c >= e || (p[c] == '$' && c + 1 == e))
    ensures PlanOf(p, c, e).Some? && Inside(PlanOf(p, c, e).value, e)
    ensures Decides(MatchRange(s, i, p, c, e, caps), s, i, p, e, PlanOf(p, c, e).value, caps, [])
  {
  }

  lemma TooFew(s: string, i: nat, p: string, e: nat, rest: Plan, caps: seq<Capture>, lo: nat, hi: nat, lazy: bool, count: nat, best: seq<nat>)
    requires e <= |p| && Inside(rest, e) && hi < lo
    ensures DecidesAfter(Unmatched, s, i, p, e, rest, caps, lo, hi, lazy, count, best)
  {
  }

  lemma {:induction false} OneDecides(s: string, i: nat, p: string, c: nat, next: nat, e: nat, caps: seq<Capture>)
      returns (count: nat, best: seq<nat>)
    requires i <= |s| && c < next && c < e <= |p| && GroupFree(p, next, e) && WellRead(p, next, e)
    ensures var n := Extent(s, i, p, c, e);
      var m := if n == 0 then Unmatched else MatchRange(s, i + 1, p, next, e, caps);
      if PlanOf(p, next, e).None? then m.Unmatched?
      else Inside(PlanOf(p, next, e).value, e)
           && DecidesAfter(m, s, i, p, e, PlanOf(p, next, e).value, caps, Least(One), Most(One, n), false, count, best)
    decreases e - c, 0
  {
    hide Decides, NoneFit, FirstFit, MatchRange;
    count, best := 1, [];
    if PlanOf(p, next, e).Some? {
      PlanInside(p, next, e);
    }
    if Extent(s, i, p, c, e) > 0 {
      best := MatchDecides(s, i + 1, p, next, e, caps);
      if PlanOf(p, next, e).Some? {
        DecidedAt(MatchRange(s, i + 1, p, next, e, caps), s, i + 1, p, e, PlanOf(p, next, e).value, caps, best);
      }
    }
  }

  lemma DecidedAt(m: Match, s: string, i: nat, p: string, e: nat, plan: Plan, caps: seq<Capture>, best: seq<nat>)
    requires e <= |p| && Inside(plan, e) && Decides(m, s, i, p, e, plan, caps, best)
    ensures if m.Unmatched? then NoneFit(s, i, p, e, plan)
            else FirstFit(s, i, p, e, plan, best) && m == Matched(i + Sum(best), caps)
  {
    hide NoneFit, FirstFit;
  }

  lemma {:induction false} UpDecides(s: string, i: nat, p: string, c: nat, e: nat, caps: seq<Capture>, n: nat, most: nat)
      returns (count: nat, best: seq<nat>)
    requires i + most <= |s| && e <= |p| && GroupFree(p, c, e) && WellRead(p, c, e)
    ensures PlanOf(p, c, e).None? ==> TryUp(s, i, p, c, e, caps, n, most).Unmatched?
    ensures PlanOf(p, c, e).Some? ==>
      Inside(PlanOf(p, c, e).value, e)
      && DecidesAfter(TryUp(s, i, p, c, e, caps, n, most), s, i, p, e, PlanOf(p, c, e).value, caps, n, most, true, count, best)
    decreases e - c, 2, most - n
  {
    hide Decides, NoneFit, FirstFit, MatchRange, PlanOf;
    count, best := n, [];
    if PlanOf(p, c, e).Some? {
      PlanInside(p, c, e);
    }
    if n <= most {
      best := MatchDecides(s, i + n, p, c, e, caps);
      var m := MatchRange(s, i + n, p, c, e, caps);
      if PlanOf(p, c, e).Some? {
        DecidedAt(m, s, i + n, p, e, PlanOf(p, c, e).value, caps, best);
      }
      if m.Unmatched? {
        count, best := UpDecides(s, i, p, c, e, caps, n + 1, most);
      }
    }
  }

  lemma {:induction false} DownDecides(s: string, i: nat, p: string, c: nat, e: nat, caps: seq<Capture>, least: nat, n: nat)
      returns (count: nat, best: seq<nat>)
    requires i + n <= |s| && e <= |p| && GroupFree(p, c, e) && WellRead(p, c, e)
    ensures PlanOf(p, c, e).None? ==> TryDown(s, i, p, c, e, caps, least, n).Unmatched?
    ensures PlanOf(p, c, e).Some? ==>
      Inside(PlanOf(p, c, e).value, e)
      && DecidesAfter(TryDown(s, i, p, c, e, caps, least, n), s, i, p, e, PlanOf(p, c, e).value, caps, least, n, false, count, best)
    decreases e - c, 2, n
  {
    hide Decides, NoneFit, FirstFit, MatchRange, PlanOf;
    count, best := n, [];
    if PlanOf(p, c, e).Some? {
      PlanInside(p, c, e);
    }
    if n >= least {
      best := MatchDecides(s, i + n, p, c, e, caps);
      var m := MatchRange(s, i + n, p, c, e, caps);
      if PlanOf(p, c, e).Some? {
        DecidedAt(m, s, i + n, p, e, PlanOf(p, c, e).value, caps, best);
      }
      if m.Unmatched? && n > 0 {
        count, best := DownDecides(s, i, p, c, e, caps, least, n - 1);
      }
    }
  }

  /** The width of a negated set is lost where it accepts no byte, so it does not match no bytes. */
  lemma MisreadExample()
    ensures PlanOf("[^a]*", 0, 5) == Some(Plan([Repeat(0, Star)], false)) && Misread("[^a]*", 0, 5)
    ensures Fits("a", 0, "[^a]*", 5, Plan([Repeat(0, Star)], false), [0])
    ensures MatchRange("a", 0, "[^a]*", 0, 5, []).Unmatched?
  {
    var p := "[^a]*";
    assert ClassEndFrom(p, 3, 5) == Some(4);
    assert ClassEndFrom(p, 2, 5) == Some(4);
    assert ClassEnd(p, 0, 5) == Some(4);
    assert !InMembers('\0', p, 3, 3) && !InMembers('\0', p, 2, 3);
    assert InMembers('a', p, 2, 3);
    assert Accepts('\0', p, 0, 5) && !Accepts('a', p, 0, 5);
    assert Extent("a", 0, p, 0, 5) == 0;
    assert PlanOf(p, 5, 5) == Some(Plan([], false));
    assert [Repeat(0, Star)] + [] == [Repeat(0, Star)];
    assert Plan([Repeat(0, Star)], false).(items := [Repeat(0, Star)][1..]) == Plan([], false);
  }

  lemma BracketInSet()
    ensures var p := "[*(.)%z]"; Misread(p, 0, 8) && GroupsOf(p, 0, 8) == [] && p[2] == '('
  {
    assert ClassEnd("[*(.)%z]", 0, 8) == Some(8);
  }

  /** From inside the set on, the pattern is a group, a zero byte and a closing bracket. */
  lemma GroupInSet()
    ensures MatchRange("x\0]", 0, "[*(.)%z]", 2, 8, []) == Matched(3, [Capture(0, 1)])
  {
    hide InSet, InClass, ClassEnd, Extent, SeenEnd, TryUp, TryDown, CloseFrom, AtomEnd, Accepts, QuantifierAt;
    Closes();
    DotMatches();
    RestMatches();
    var caps := [Capture(0, 0)];
    assert [] + caps == caps && caps[0 := Capture(0, 1)] == [Capture(0, 1)];
  }

  lemma Closes()
    ensures CloseFrom("[*(.)%z]", 3, 8, 1) == Some(4)
  {
  }

  lemma DotMatches()
    ensures MatchRange("x\0]", 0, "[*(.)%z]", 3, 4, [Capture(0, 0)]) == Matched(1, [Capture(0, 0)])
  {
    hide InSet, InClass, ClassEnd;
    assert MatchRange("x\0]", 1, "[*(.)%z]", 4, 4, [Capture(0, 0)]) == Matched(1, [Capture(0, 0)]);
  }

  lemma RestMatches()
    ensures MatchRange("x\0]", 1, "[*(.)%z]", 5, 8, [Capture(0, 1)]) == Matched(3, [Capture(0, 1)])
  {
    hide InSet, ClassEnd;
    var s, p := "x\0]", "[*(.)%z]";
    assert MatchRange(s, 3, p, 8, 8, [Capture(0, 1)]) == Matched(3, [Capture(0, 1)]);
    assert MatchRange(s, 2, p, 7, 8, [Capture(0, 1)]) == Matched(3, [Capture(0, 1)]);
  }

  lemma SetLeftOut()
    ensures SeenEnd("x\0]", 0, "[*(.)%z]", 0, 8) == Some(1) && Extent("x\0]", 0, "[*(.)%z]", 0, 8) == 0
  {
    assert ClassEnd("[*(.)%z]", 0, 8) == Some(8);
  }

  /** Where a set is misread, a bracket inside it can open a group that the pattern does not have. */
  lemma MisreadGroup()
    ensures var p := "[*(.)%z]"; Misread(p, 0, 8) && GroupsOf(p, 0, 8) == [] && p[2] == '('
    ensures MatchRange("x\0]", 0, "[*(.)%z]", 0, 8, []) == Matched(3, [Capture(0, 1)])
  {
    hide Misread, GroupsOf, SeenEnd, Extent, InSet, InClass, ClassEnd;
    BracketInSet();
    SetLeftOut();
    GroupInSet();
  }

  // ---- searching ---------------------------------------------------------------------------

  /** A search finds the first position from its start on where the pattern matches. */
  lemma {:induction false} SearchIsLeftmost(s: string, i: nat, p: string)
    ensures var f := SearchFrom(s, i, p);
      if f.NotFound? then forall j :: i <= j <= |s| ==> MatchAt(s, j, p).Unmatched?
      else MatchAt(s, f.start, p) == Matched(f.end, f.captures) && forall j :: i <= j < f.start ==> MatchAt(s, j, p).Unmatched?
    decreases |s| - i
  {
    hide MatchRange, MatchAt;
    if i <= |s| && MatchAt(s, i, p).Unmatched? {
      SearchIsLeftmost(s, i + 1, p);
    }
  }
}
