/**
 * What the lookback puts in front of an utterance.
 *
 * Nothing ever clears the lookback, and the frame that cuts off a false
 * start never enters it. So a lead need not be the audio just before the
 * onset, and one frame may lead several utterances; this module says exactly
 * when.
 */
module SegmentLeads {
  import opened Basics
  import opened Detector
  import opened Segmentation

  /** The frame after a segment's end; only the last segment of a stream can lack one. */
  function Beyond(s: Segment): nat
  {
    if s.ended.Some? then s.ended.value + 1 else 0
  }

  /** The first frame of the gap before segment m; the first gap begins at `from`. */
  function GapStart(from: nat, segments: seq<Segment>, m: nat): nat
    requires m < |segments|
  {
    if m == 0 then from else Beyond(segments[m - 1])
  }

  /** The idle frames of all gaps up to the onset of segment m. */
  function IdleUpTo(b: seq<bool>, from: nat, segments: seq<Segment>, m: nat): seq<nat>
    requires m < |segments|
    decreases m
  {
    Idle(b, from, segments[0].onset)
      + (if m == 0 then [] else IdleUpTo(b, Beyond(segments[0]), segments[1..], m - 1))
  }

  /** The idle frames of the gaps after segment m, up to the onset of segment n. */
  function IdleBetween(b: seq<bool>, segments: seq<Segment>, m: nat, n: nat): seq<nat>
    requires m < n < |segments|
  {
    IdleUpTo(b, Beyond(segments[m]), segments[m + 1..], n - m - 1)
  }

  lemma IdleUnfold(b: seq<bool>, from: nat, segments: seq<Segment>, m: nat)
    requires 0 < m < |segments|
    ensures IdleUpTo(b, from, segments, m) == Idle(b, from, segments[0].onset)
      + IdleUpTo(b, Beyond(segments[0]), segments[1..], m - 1)
  {
  }

  /** The first segment of a stretch and what follows it. */
  lemma Peel(c: Config, b: seq<bool>, from: nat, idle: seq<nat>) returns (i: nat, idle': seq<nat>, s: Segment)
    requires ValidConfig(c) && IdleSoFar(b, idle, from) && Segments(c, b, from, idle) != []
    ensures FirstStart(c, b, from) == Some(i) && idle' == idle + Idle(b, from, s.onset)
    ensures s.onset == i + 1 - StartRun(c) && s == Opened(c, b, idle', s.onset, i) && s.lead == LastN(idle', c.lookback)
    ensures Segments(c, b, from, idle) == [s] + After(c, b, s, idle')
    ensures from <= s.onset && IdleSoFar(b, idle', s.onset)
    ensures s.ended.Some? ==> s.onset < s.ended.value < |b| && IdleSoFar(b, idle', Beyond(s))
    ensures |Segments(c, b, from, idle)| > 1 ==> s.ended.Some?
  {
    i := FirstStart(c, b, from).value;
    idle' := idle + Idle(b, from, i + 1 - StartRun(c));
    s := Opened(c, b, idle', i + 1 - StartRun(c), i);
    SegmentsStep(c, b, from, idle, i);
    IdleExtends(b, idle, from, s.onset);
    OpenedIsWellCut(c, b, from, idle', i);
    if s.ended.Some? { IdleLater(b, idle', s.onset, Beyond(s)); }
  }

  /** The lead of segment m is the last of all idle frames so far, which are in order and before its onset. */
  ghost predicate LeadIsLast(c: Config, b: seq<bool>, from: nat, idle: seq<nat>, segments: seq<Segment>, m: nat)
  {
    && m < |segments|
    && var all := idle + IdleUpTo(b, from, segments, m);
       segments[m].lead == LastN(all, c.lookback) && IdleSoFar(b, all, segments[m].onset)
  }

  lemma LeadBehind(c: Config, b: seq<bool>, from: nat, idle: seq<nat>, segments: seq<Segment>, m: nat)
    requires 0 < m < |segments|
    requires LeadIsLast(c, b, Beyond(segments[0]), idle + Idle(b, from, segments[0].onset), segments[1..], m - 1)
    ensures LeadIsLast(c, b, from, idle, segments, m)
  {
    var next, rest := Beyond(segments[0]), segments[1..];
    IdleUnfold(b, from, segments, m);
    Associative(idle, Idle(b, from, segments[0].onset), IdleUpTo(b, next, rest, m - 1));
    assert rest[m - 1] == segments[m];
  }

  lemma FirstLead(c: Config, b: seq<bool>, from: nat, idle: seq<nat>, segments: seq<Segment>, idle': seq<nat>)
    requires segments != [] && idle' == idle + Idle(b, from, segments[0].onset)
    requires segments[0].lead == LastN(idle', c.lookback) && IdleSoFar(b, idle', segments[0].onset)
    ensures LeadIsLast(c, b, from, idle, segments, 0)
  {
    assert IdleUpTo(b, from, segments, 0) == Idle(b, from, segments[0].onset);
  }

  /** A lead is the last idle frames of all gaps so far, in whatever gap they were. */
  lemma {:induction false} LeadIsLastIdle(c: Config, b: seq<bool>, from: nat, idle: seq<nat>, m: nat)
    requires ValidConfig(c) && IdleSoFar(b, idle, from) && m < |Segments(c, b, from, idle)|
    ensures LeadIsLast(c, b, from, idle, Segments(c, b, from, idle), m)
    decreases m
  {
    var segments := Segments(c, b, from, idle);
    var i, idle', s := Peel(c, b, from, idle);
    assert segments[0] == s;
    if m == 0 {
      FirstLead(c, b, from, idle, segments, idle');
    } else {
      assert segments[1..] == After(c, b, s, idle');
      LeadIsLastIdle(c, b, Beyond(s), idle', m - 1);
      LeadBehind(c, b, from, idle, segments, m);
    }
  }

  // ---------- when a lead touches its onset ----------

  /** `lead` is the run of frames that ends just before `onset`. */
  predicate Touches(lead: seq<nat>, onset: nat)
  {
    |lead| <= onset && forall k :: 0 <= k < |lead| ==> lead[k] == onset - |lead| + k
  }

  /** The last n frames before `onset` are idle frames of the gap that began at `from`. */
  predicate IdleRun(b: seq<bool>, from: nat, onset: nat, n: nat)
  {
    from + n <= onset && forall k: nat :: onset - n <= k < onset ==> IsIdle(b, from, k)
  }

  lemma {:induction false} IdleTail(b: seq<bool>, from: nat, onset: nat, n: nat)
    requires IdleRun(b, from, onset, n)
    ensures var idle := Idle(b, from, onset);
      n <= |idle| && Touches(idle[|idle| - n..], onset)
  {
    if n > 0 {
      IdleTail(b, from, onset - 1, n - 1);
      var idle, front := Idle(b, from, onset), Idle(b, from, onset - 1);
      assert IsIdle(b, from, onset - 1) && idle == front + [onset - 1];
      assert idle[|idle| - n..] == front[|front| - (n - 1)..] + [onset - 1];
    }
  }

  lemma {:induction false} IdleMember(b: seq<bool>, from: nat, onset: nat, k: nat)
    ensures k in Idle(b, from, onset) <==> from <= k < onset && IsIdle(b, from, k)
  {
    if from < onset { IdleMember(b, from, onset - 1, k); }
  }

  /** The frames of earlier gaps lie before the boundary that began this one. */
  ghost predicate Far(earlier: seq<nat>, from: nat)
  {
    forall k :: 0 <= k < |earlier| ==> earlier[k] + 1 < from
  }

  lemma PlaceOf(b: seq<bool>, earlier: seq<nat>, from: nat, onset: nat, k: nat)
    requires Far(earlier, from) && k in earlier + Idle(b, from, onset)
    ensures k + 1 < from || (from <= k && IsIdle(b, from, k))
  {
    IdleMember(b, from, onset, k);
  }

  lemma TouchingIsIdle(b: seq<bool>, earlier: seq<nat>, from: nat, onset: nat, n: nat)
    requires Far(earlier, from) && from <= onset && n <= |earlier + Idle(b, from, onset)|
    requires var all := earlier + Idle(b, from, onset); Touches(all[|all| - n..], onset)
    ensures IdleRun(b, from, onset, n)
  {
    var all := earlier + Idle(b, from, onset);
    var lead := all[|all| - n..];
    if onset - n < from {
      assert lead[from - 1 - (onset - n)] == from - 1;
      PlaceOf(b, earlier, from, onset, from - 1);
      assert false;
    }
    forall k: nat | onset - n <= k < onset ensures IsIdle(b, from, k) {
      assert lead[k - (onset - n)] == k;
      PlaceOf(b, earlier, from, onset, k);
    }
  }

  lemma IdleTouches(b: seq<bool>, earlier: seq<nat>, from: nat, onset: nat, n: nat)
    requires IdleRun(b, from, onset, n)
    ensures var all := earlier + Idle(b, from, onset);
      n <= |all| && Touches(all[|all| - n..], onset)
  {
    IdleTail(b, from, onset, n);
    var idle := Idle(b, from, onset);
    var all := earlier + idle;
    assert all[|all| - n..] == idle[|idle| - n..];
  }

  /** The claim for one gap: `earlier` are the idle frames before it. */
  lemma GapTouches(b: seq<bool>, earlier: seq<nat>, from: nat, onset: nat, size: nat)
    requires Far(earlier, from) && from <= onset
    ensures var lead := LastN(earlier + Idle(b, from, onset), size);
      Touches(lead, onset) <==> IdleRun(b, from, onset, |lead|)
  {
    var all := earlier + Idle(b, from, onset);
    var n := |LastN(all, size)|;
    assert LastN(all, size) == all[|all| - n..];
    if Touches(all[|all| - n..], onset) { TouchingIsIdle(b, earlier, from, onset, n); }
    if IdleRun(b, from, onset, n) { IdleTouches(b, earlier, from, onset, n); }
  }

  lemma {:induction false} LeadTouchesFrom(c: Config, b: seq<bool>, from: nat, idle: seq<nat>, m: nat)
    requires ValidConfig(c) && IdleSoFar(b, idle, from) && Far(idle, from) && m < |Segments(c, b, from, idle)|
    ensures var segments := Segments(c, b, from, idle); var s := segments[m];
      Touches(s.lead, s.onset) <==> IdleRun(b, GapStart(from, segments, m), s.onset, |s.lead|)
    decreases m
  {
    var segments := Segments(c, b, from, idle);
    var i, idle', s := Peel(c, b, from, idle);
    assert segments[0] == s;
    if m == 0 {
      GapTouches(b, idle, from, s.onset, c.lookback);
    } else {
      var rest := After(c, b, s, idle');
      assert segments == [s] + rest && segments[m] == rest[m - 1];
      assert GapStart(from, segments, m) == GapStart(Beyond(s), rest, m - 1);
      LeadTouchesFrom(c, b, Beyond(s), idle', m - 1);
    }
  }

  /**
   * A lead is the audio just before its onset exactly when each of those
   * frames is an idle frame of the gap right before it: no frame that cut
   * off a false start among them, and none from before the last boundary.
   */
  lemma LeadTouchesExactly(c: Config, b: seq<bool>, m: nat)
    requires ValidConfig(c) && m < |Segments(c, b, 0, [])|
    ensures var segments := Segments(c, b, 0, []); var s := segments[m];
      Touches(s.lead, s.onset) <==> IdleRun(b, GapStart(0, segments, m), s.onset, |s.lead|)
  {
    LeadTouchesFrom(c, b, 0, [], m);
  }

  // ---------- when two leads share a frame ----------

  lemma {:induction false} IdleSplits(b: seq<bool>, from: nat, segments: seq<Segment>, m: nat, n: nat)
    requires m < n < |segments|
    ensures IdleUpTo(b, from, segments, n) == IdleUpTo(b, from, segments, m) + IdleBetween(b, segments, m, n)
    decreases m
  {
    IdleUnfold(b, from, segments, n);
    if m > 0 {
      var head, next, rest := Idle(b, from, segments[0].onset), Beyond(segments[0]), segments[1..];
      IdleUnfold(b, from, segments, m);
      IdleSplits(b, next, rest, m - 1, n - 1);
      assert rest[m - 1] == segments[m] && rest[m..] == segments[m + 1..];
      Associative(head, IdleUpTo(b, next, rest, m - 1), IdleBetween(b, segments, m, n));
    }
  }

  predicate Increasing(s: seq<nat>)
  {
    forall j, k :: 0 <= j < k < |s| ==> s[j] < s[k]
  }

  predicate ShareFrame(a: seq<nat>, b: seq<nat>)
  {
    exists i, j :: 0 <= i < |a| && 0 <= j < |b| && a[i] == b[j]
  }

  lemma SuffixesShare(earlier: seq<nat>, later: seq<nat>, n: nat)
    requires n >= 1 && Increasing(earlier + later)
    ensures ShareFrame(LastN(earlier, n), LastN(earlier + later, n)) <==> earlier != [] && |later| < n
  {
    var all := earlier + later;
    var a, b := LastN(earlier, n), LastN(all, n);
    if earlier != [] && |later| < n {
      var at := |b| - |later| - 1;
      assert a[|a| - 1] == earlier[|earlier| - 1] == all[|earlier| - 1] == b[at];
    }
    if i, j :| 0 <= i < |a| && 0 <= j < |b| && a[i] == b[j] {
      var i', j' := |earlier| - |a| + i, |all| - |b| + j;
      assert all[i'] == a[i] && all[j'] == b[j];
      assert i' == j';
    }
  }

  /**
   * Two utterances are led by a common frame exactly when the earlier one has
   * a lead at all and fewer idle frames than the lookback holds came in the
   * gaps between them.
   */
  lemma LeadsShareExactly(c: Config, b: seq<bool>, m: nat, n: nat)
    requires ValidConfig(c) && m < n < |Segments(c, b, 0, [])|
    ensures var segments := Segments(c, b, 0, []);
      ShareFrame(segments[m].lead, segments[n].lead)
      <==> segments[m].lead != [] && |IdleBetween(b, segments, m, n)| < c.lookback
  {
    var segments := Segments(c, b, 0, []);
    var earlier, later := IdleUpTo(b, 0, segments, m), IdleBetween(b, segments, m, n);
    assert segments[m].lead == LastN(earlier, c.lookback) by {
      LeadIsLastIdle(c, b, 0, [], m);
      assert [] + earlier == earlier;
    }
    assert segments[n].lead == LastN(earlier + later, c.lookback) && Increasing(earlier + later) by {
      LeadIsLastIdle(c, b, 0, [], n);
      IdleSplits(b, 0, segments, m, n);
      assert [] + IdleUpTo(b, 0, segments, n) == earlier + later;
    }
    SuffixesShare(earlier, later, c.lookback);
  }

  /** For neighbours, that is the number of idle frames of the gap between them. */
  lemma NeighboursShareExactly(c: Config, b: seq<bool>, m: nat)
    requires ValidConfig(c) && m + 1 < |Segments(c, b, 0, [])|
    ensures var segments := Segments(c, b, 0, []); var next := segments[m + 1];
      ShareFrame(segments[m].lead, next.lead)
      <==> segments[m].lead != [] && |Idle(b, GapStart(0, segments, m + 1), next.onset)| < c.lookback
  {
    LeadsShareExactly(c, b, m, m + 1);
    var segments := Segments(c, b, 0, []);
    var gap := Idle(b, Beyond(segments[m]), segments[m + 1].onset);
    assert IdleBetween(b, segments, m, m + 1) == gap + [];
  }
}
