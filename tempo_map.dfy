/** Tick-to-seconds conversion of a song (songTime, midi.c:577-619) and the
    pass that stamps every note with its start and stop time and gathers the
    song's pitch range and length (setNoteTimes, midi.c:621-664).

    Times are exact reals where the C code uses doubles. */
module TempoMap {
  import opened MidiTypes
  import opened MidiSong

  /** The product `x * y`, kept behind one unfolding so that only the proofs
      that call TimesIs see the nonlinear term. */
  function Times(x: real, y: real, steps: nat := 3): real
    decreases steps
  {
    if steps == 0 then x * y else Times(x, y, steps - 1)
  }

  lemma TimesIs(x: real, y: real)
    ensures Times(x, y) == x * y
  {
    assert Times(x, y, 1) == x * y;
  }

  /** Seconds per tick at `tempo` microseconds per quarter note and `division`
      ticks per quarter note. A zero division makes the C division produce an
      infinity or NaN; the model gives 0.0 there. */
  function Rate(tempo: nat, division: int, steps: nat := 3): real
    decreases steps
  {
    if steps > 0 then Rate(tempo, division, steps - 1)
    else if division == 0 then 0.0
    else tempo as real / division as real / 1000000.0
  }

  lemma RateIs(tempo: nat, division: int)
    ensures Rate(tempo, division) == if division == 0 then 0.0 else tempo as real / division as real / 1000000.0
  {
    assert Rate(tempo, division, 1) == Rate(tempo, division, 0);
  }

  /** A rate is never negative for a positive division, and a zero tempo
      stops the clock. */
  lemma RateBounds(tempo: nat, division: int)
    requires division > 0
    ensures Rate(tempo, division) >= 0.0
    ensures tempo == 0 <==> Rate(tempo, division) == 0.0
  {
    RateIs(tempo, division);
    var d := division as real;
    var q := tempo as real / d;
    assert q * d == tempo as real;
    assert q >= 0.0;
  }

  /** Products split along their second factor. */
  lemma TimesSplit(r: real, last: real, t1: real, t2: real)
    ensures Times(r, t2 - last) == Times(r, t1 - last) + Times(r, t2 - t1)
  {
    TimesIs(r, t2 - last);
    TimesIs(r, t1 - last);
    TimesIs(r, t2 - t1);
    assert r * (t2 - last) == r * (t1 - last) + r * (t2 - t1);
  }

  lemma TimesMonotone(r: real, a: real, b: real)
    requires r >= 0.0 && a <= b
    ensures Times(r, a) <= Times(r, b)
  {
    TimesIs(r, a);
    TimesIs(r, b);
    assert r * b - r * a == r * (b - a);
  }

  /** What songTime reads from a note of the first track: its start tick and
      its tempo. */
  datatype TempoPoint = TempoPoint(tick: nat, tempo: nat)

  function Points(notes: seq<Note>): seq<TempoPoint>
  {
    seq(|notes|, i requires 0 <= i < |notes| => TempoPoint(notes[i].startTick, notes[i].tempo))
  }

  /** Everything the time of a tick depends on: the song's default tempo, its
      division, whether the first track is a tempo track, and that track's
      notes. */
  datatype Timeline = Timeline(tempo: nat, division: int, tempoTrack: bool, points: seq<TempoPoint>)

  /** The walk of songTime over the first track from point `i` on, with the
      current `rate`, the tick `last` of the previous change and the time
      `cum` accumulated up to it: every point at or before `tick` ends a span
      of constant rate and sets the rate from its own tempo; the first point
      past `tick` ends the walk. */
  function Walk(points: seq<TempoPoint>, i: nat, tick: nat, rate: real, last: real, cum: real, division: int): real
    requires i <= |points|
    decreases |points| - i
  {
    if i == |points| || points[i].tick > tick then cum + Times(rate, tick as real - last)
    else Walk(points, i + 1, tick, Rate(points[i].tempo, division), points[i].tick as real,
              cum + Times(rate, points[i].tick as real - last), division)
  }

  /** The time in seconds of `tick`: at the default tempo throughout unless
      the first track is a tempo track, piecewise by its notes otherwise. */
  function TimeAt(tl: Timeline, tick: nat): real
  {
    if tl.tempoTrack then Walk(tl.points, 0, tick, Rate(tl.tempo, tl.division), 0.0, 0.0, tl.division)
    else Times(Rate(tl.tempo, tl.division), tick as real)
  }

  /** The track songTime reads, if any. */
  function FirstTrack(song: Song): set<Track>
  {
    if |song.tracks| > 0 then {song.tracks[0]} else {}
  }

  /** What songTime needs to stay in bounds: the track count matches the
      table and the first track's count fits its buffer. */
  ghost predicate Timed(song: Song)
    reads FirstTrack(song)
  {
    song.nTracks == |song.tracks| && (|song.tracks| > 0 ==> song.tracks[0].nNotes <= |song.tracks[0].notes|)
  }

  /** The timeline a song defines. */
  ghost function SongTimeline(song: Song): Timeline
    reads FirstTrack(song)
    requires Timed(song)
  {
    if |song.tracks| > 0 then
      Timeline(song.tempo, song.division, song.tracks[0].tempoTrack, Points(song.tracks[0].Notes()))
    else Timeline(song.tempo, song.division, false, [])
  }

  /** songTime (midi.c:577-619): the time of `tick`, summing spans of constant
      tempo over the notes of the first track when it is a tempo track. */
  method SongTime(song: Song, tick: nat) returns (t: real)
    requires Timed(song)
    ensures t == TimeAt(SongTimeline(song), tick)
  {
    var tempo := song.tempo;
    var division := song.division;
    var rate := Rate(tempo, division);
    // default assumes constant tempo
    t := Times(rate, tick as real);
    var cumulativeTime := 0.0;
    var lastTick := 0.0;
    var newTicks := 0.0;
    if song.nTracks > 0 && song.tracks[0].tempoTrack {
      var track := song.tracks[0];
      ghost var points := Points(track.Notes());
      assert TimeAt(SongTimeline(song), tick) == Walk(points, 0, tick, rate, lastTick, cumulativeTime, division);
      var i := 0;
      while i < track.nNotes && track.notes[i].startTick <= tick
        invariant 0 <= i <= track.nNotes == |points|
        invariant TimeAt(SongTimeline(song), tick) == Walk(points, i, tick, rate, lastTick, cumulativeTime, division)
      {
        ghost var r0, l0, c0 := rate, lastTick, cumulativeTime;
        newTicks := track.notes[i].startTick as real - lastTick;
        lastTick := track.notes[i].startTick as real;
        cumulativeTime := cumulativeTime + Times(rate, newTicks);
        tempo := track.notes[i].tempo;
        rate := Rate(tempo, division);
        assert Walk(points, i, tick, r0, l0, c0, division) == Walk(points, i + 1, tick, rate, lastTick, cumulativeTime, division) by {
          assert points[i] == TempoPoint(track.notes[i].startTick, track.notes[i].tempo);
          WalkStep(points, i, tick, r0, l0, c0, division);
          assert lastTick == points[i].tick as real;
          assert rate == Rate(points[i].tempo, division);
          assert cumulativeTime == c0 + Times(r0, points[i].tick as real - l0);
        }
        i := i + 1;
      }
      newTicks := tick as real - lastTick;
      cumulativeTime := cumulativeTime + Times(rate, newTicks);
      t := cumulativeTime;
    }
  }

  // ---------------------------------------------------------------------
  // Properties of the timeline

  lemma WalkStep(points: seq<TempoPoint>, i: nat, tick: nat, rate: real, last: real, cum: real, division: int)
    requires i < |points| && points[i].tick <= tick
    ensures Walk(points, i, tick, rate, last, cum, division)
         == Walk(points, i + 1, tick, Rate(points[i].tempo, division), points[i].tick as real,
                 cum + Times(rate, points[i].tick as real - last), division)
  {
  }

  lemma {:induction false} WalkSegment(points: seq<TempoPoint>, i: nat, n: nat, t1: nat, t2: nat, rate: real, last: real, cum: real, division: int)
    requires i <= n <= |points| && t1 <= t2
    requires forall j :: i <= j < n ==> points[j].tick <= t1
    requires n == |points| || points[n].tick > t2
    ensures Walk(points, i, t2, rate, last, cum, division)
         == Walk(points, i, t1, rate, last, cum, division)
            + Times(if i < n then Rate(points[n - 1].tempo, division) else rate, t2 as real - t1 as real)
    decreases n - i
  {
    if i < n {
      WalkSegment(points, i + 1, n, t1, t2, Rate(points[i].tempo, division), points[i].tick as real,
                  cum + Times(rate, points[i].tick as real - last), division);
    } else {
      assert Walk(points, i, t2, rate, last, cum, division) == cum + Times(rate, t2 as real - last);
      assert Walk(points, i, t1, rate, last, cum, division) == cum + Times(rate, t1 as real - last);
      TimesSplit(rate, last, t1 as real, t2 as real);
    }
  }

  /** Between two tempo changes the clock runs at the rate of the earlier one:
      if the first `n` points lie at or before `t1` and the next one after
      `t2`, time advances from `t1` to `t2` at the rate set by point `n - 1`
      (the default tempo when `n` is 0). No ordering of the points is needed. */
  lemma ConstantRateBetweenChanges(tl: Timeline, n: nat, t1: nat, t2: nat)
    requires tl.tempoTrack && n <= |tl.points| && t1 <= t2
    requires forall j :: 0 <= j < n ==> tl.points[j].tick <= t1
    requires n == |tl.points| || tl.points[n].tick > t2
    ensures TimeAt(tl, t2) == TimeAt(tl, t1)
      + (if n > 0 then Rate(tl.points[n - 1].tempo, tl.division) else Rate(tl.tempo, tl.division)) * (t2 as real - t1 as real)
  {
    WalkSegment(tl.points, 0, n, t1, t2, Rate(tl.tempo, tl.division), 0.0, 0.0, tl.division);
    TimesIs(if n > 0 then Rate(tl.points[n - 1].tempo, tl.division) else Rate(tl.tempo, tl.division), t2 as real - t1 as real);
  }

  /** Every note of the first track counts as a tempo change, and an ordinary
      note carries tempo 0: once one is the latest point before a tick, the
      clock stands still until the next point. */
  lemma NoteWithoutTempoStopsClock(tl: Timeline, n: nat, t1: nat, t2: nat)
    requires tl.tempoTrack && 0 < n <= |tl.points| && t1 <= t2 && tl.division > 0
    requires tl.points[n - 1].tempo == 0
    requires forall j :: 0 <= j < n ==> tl.points[j].tick <= t1
    requires n == |tl.points| || tl.points[n].tick > t2
    ensures TimeAt(tl, t2) == TimeAt(tl, t1)
  {
    ConstantRateBetweenChanges(tl, n, t1, t2);
    RateBounds(0, tl.division);
  }

  /** Without a tempo track the time is proportional to the tick. */
  lemma ConstantTempoWithoutTempoTrack(tl: Timeline, t1: nat, t2: nat)
    requires !tl.tempoTrack && tl.division > 0 && t1 <= t2
    ensures TimeAt(tl, t2) == tl.tempo as real * t2 as real / tl.division as real / 1000000.0
    ensures TimeAt(tl, t1) <= TimeAt(tl, t2)
    ensures TimeAt(tl, t2) - TimeAt(tl, t1) == tl.tempo as real * (t2 - t1) as real / tl.division as real / 1000000.0
  {
    var r := Rate(tl.tempo, tl.division);
    RateIs(tl.tempo, tl.division);
    RateBounds(tl.tempo, tl.division);
    TimesSplit(r, 0.0, t1 as real, t2 as real);
    TimesMonotone(r, 0.0, (t2 - t1) as real);
    TimesIs(r, (t2 - t1) as real);
    TimesIs(r, 0.0);
    assert TimeAt(tl, t2) - TimeAt(tl, t1) == r * (t2 - t1) as real;
    TimesIs(r, t2 as real);
    assert r * t2 as real == tl.tempo as real * t2 as real / tl.division as real / 1000000.0;
  }

  predicate SortedFrom(points: seq<TempoPoint>, i: nat)
  {
    forall j, k :: i <= j < k < |points| ==> points[j].tick <= points[k].tick
  }

  lemma {:induction false} WalkLowerBound(points: seq<TempoPoint>, i: nat, tick: nat, rate: real, last: real, cum: real, division: int)
    requires i <= |points| && division > 0 && rate >= 0.0 && last <= tick as real
    requires SortedFrom(points, i) && (i < |points| ==> last <= points[i].tick as real)
    ensures Walk(points, i, tick, rate, last, cum, division) >= cum
    decreases |points| - i
  {
    TimesIs(rate, 0.0);
    if i < |points| && points[i].tick <= tick {
      var s := points[i].tick as real;
      TimesMonotone(rate, 0.0, s - last);
      WalkStep(points, i, tick, rate, last, cum, division);
      RateBounds(points[i].tempo, division);
      WalkLowerBound(points, i + 1, tick, Rate(points[i].tempo, division), s, cum + Times(rate, s - last), division);
    } else {
      TimesMonotone(rate, 0.0, tick as real - last);
    }
  }

  /** Monotonicity when the earlier tick stops before point `i` and the
      later one passes it. */
  lemma WalkMonotoneSplit(points: seq<TempoPoint>, i: nat, t1: nat, t2: nat, rate: real, last: real, cum: real, division: int)
    requires i < |points| && division > 0 && rate >= 0.0 && last <= t1 as real
    requires t1 < points[i].tick <= t2
    requires SortedFrom(points, i) && last <= points[i].tick as real
    ensures Walk(points, i, t1, rate, last, cum, division) <= Walk(points, i, t2, rate, last, cum, division)
  {
    var s := points[i].tick as real;
    var r', c' := Rate(points[i].tempo, division), cum + Times(rate, s - last);
    assert Walk(points, i, t1, rate, last, cum, division) == cum + Times(rate, t1 as real - last);
    WalkStep(points, i, t2, rate, last, cum, division);
    RateBounds(points[i].tempo, division);
    WalkLowerBound(points, i + 1, t2, r', s, c', division);
    TimesMonotone(rate, t1 as real - last, s - last);
  }

  /** Monotonicity when both ticks stop before point `i`. */
  lemma WalkMonotoneStop(points: seq<TempoPoint>, i: nat, t1: nat, t2: nat, rate: real, last: real, cum: real, division: int)
    requires i <= |points| && rate >= 0.0 && t1 <= t2
    requires i == |points| || points[i].tick > t2
    ensures Walk(points, i, t1, rate, last, cum, division) <= Walk(points, i, t2, rate, last, cum, division)
  {
    assert Walk(points, i, t1, rate, last, cum, division) == cum + Times(rate, t1 as real - last);
    assert Walk(points, i, t2, rate, last, cum, division) == cum + Times(rate, t2 as real - last);
    TimesMonotone(rate, t1 as real - last, t2 as real - last);
  }

  lemma {:induction false} WalkMonotone(points: seq<TempoPoint>, i: nat, t1: nat, t2: nat, rate: real, last: real, cum: real, division: int)
    requires i <= |points| && division > 0 && rate >= 0.0 && last <= t1 as real && t1 <= t2
    requires SortedFrom(points, i) && (i < |points| ==> last <= points[i].tick as real)
    ensures Walk(points, i, t1, rate, last, cum, division) <= Walk(points, i, t2, rate, last, cum, division)
    decreases |points| - i
  {
    if i < |points| && points[i].tick <= t1 {
      // both walks pass the point
      var s := points[i].tick as real;
      WalkStep(points, i, t1, rate, last, cum, division);
      WalkStep(points, i, t2, rate, last, cum, division);
      RateBounds(points[i].tempo, division);
      WalkMonotone(points, i + 1, t1, t2, Rate(points[i].tempo, division), s, cum + Times(rate, s - last), division);
    } else if i < |points| && points[i].tick <= t2 {
      WalkMonotoneSplit(points, i, t1, t2, rate, last, cum, division);
    } else {
      WalkMonotoneStop(points, i, t1, t2, rate, last, cum, division);
    }
  }

  /** With a positive division and the first track's notes in tick order,
      later ticks never map to earlier times. */
  lemma TimeAtMonotone(tl: Timeline, t1: nat, t2: nat)
    requires tl.division > 0 && SortedFrom(tl.points, 0) && t1 <= t2
    ensures TimeAt(tl, t1) <= TimeAt(tl, t2)
  {
    if tl.tempoTrack {
      RateBounds(tl.tempo, tl.division);
      WalkMonotone(tl.points, 0, t1, t2, Rate(tl.tempo, tl.division), 0.0, 0.0, tl.division);
    } else {
      ConstantTempoWithoutTempoTrack(tl, t1, t2);
    }
  }

  // ---------------------------------------------------------------------
  // Note times and song aggregates

  /** A note with its times filled in from its ticks; a zero tick leaves the
      corresponding time as it was (midi.c:640-643). */
  function Stamp(n: Note, tl: Timeline): (r: Note)
    ensures r.(startTime := n.startTime, stopTime := n.stopTime) == n
    ensures n.startTick != 0 ==> r.startTime == TimeAt(tl, n.startTick)
    ensures n.stopTick != 0 ==> r.stopTime == TimeAt(tl, n.stopTick)
    ensures n.startTick == 0 ==> r.startTime == n.startTime
    ensures n.stopTick == 0 ==> r.stopTime == n.stopTime
  {
    n.(startTime := if n.startTick != 0 then TimeAt(tl, n.startTick) else n.startTime,
       stopTime := if n.stopTick != 0 then TimeAt(tl, n.stopTick) else n.stopTime)
  }

  /** Stamping a note twice on the same timeline gives the same note as
      stamping it once: the times depend on the ticks alone. */
  lemma StampIdempotent(n: Note, tl: Timeline)
    ensures Stamp(Stamp(n, tl), tl) == Stamp(n, tl)
  {
  }

  function Stamped(notes: seq<Note>, tl: Timeline): seq<Note>
  {
    seq(|notes|, k requires 0 <= k < |notes| => Stamp(notes[k], tl))
  }

  /** Stamping times leaves every tick and tempo, hence the timeline, as it
      was: setNoteTimes may rewrite the first track while it reads it. */
  lemma StampKeepsPoints(notes: seq<Note>, tl: Timeline)
    ensures Points(Stamped(notes, tl)) == Points(notes)
  {
    var a, b := Points(Stamped(notes, tl)), Points(notes);
    assert forall k :: 0 <= k < |a| ==> a[k] == b[k];
  }

  /** The latest time and the pitch range of the counted notes. */
  datatype Aggregates = Aggregates(maxTime: real, minNote: int, maxNote: int)

  /** The starting values of setNoteTimes (midi.c:629-631). */
  const Initial: Aggregates := Aggregates(0.0, 255, 0)

  /** One note's contribution, comparing as midi.c:647-654 does. */
  function Include(a: Aggregates, n: Note): Aggregates
  {
    var hi := if n.note > a.maxNote then n.note else a.maxNote;
    var lo := if n.note < a.minNote then n.note else a.minNote;
    var t1 := if n.startTime > a.maxTime then n.startTime else a.maxTime;
    var t2 := if n.stopTime > t1 then n.stopTime else t1;
    Aggregates(t2, lo, hi)
  }

  /** Whether a note counts towards the aggregates: not on a tempo track
      and not a pedal note (midi.c:645). */
  predicate Counts(tempoTrack: bool, n: Note)
  {
    !tempoTrack && !n.isPedal
  }

  /** The aggregates after the notes of one track, in order, from `a`. */
  function AggregateTrack(a: Aggregates, tempoTrack: bool, notes: seq<Note>): Aggregates
    decreases |notes|
  {
    if notes == [] then a
    else
      var prev := AggregateTrack(a, tempoTrack, notes[..|notes| - 1]);
      var n := notes[|notes| - 1];
      if Counts(tempoTrack, n) then Include(prev, n) else prev
  }

  /** What the aggregates of a track mean: every counted note lies within the
      pitch range and ends no later than the latest time, and each aggregate
      is either its starting value or is reached by some counted note. */
  lemma {:induction false} AggregateTrackBounds(a: Aggregates, tempoTrack: bool, notes: seq<Note>)
    ensures var r := AggregateTrack(a, tempoTrack, notes);
      && (forall k :: 0 <= k < |notes| && Counts(tempoTrack, notes[k]) ==>
            && r.minNote <= notes[k].note <= r.maxNote
            && notes[k].startTime <= r.maxTime && notes[k].stopTime <= r.maxTime)
      && r.minNote <= a.minNote && a.maxNote <= r.maxNote && a.maxTime <= r.maxTime
      && (r.maxNote == a.maxNote ||
          exists k :: 0 <= k < |notes| && Counts(tempoTrack, notes[k]) && notes[k].note == r.maxNote)
      && (r.minNote == a.minNote ||
          exists k :: 0 <= k < |notes| && Counts(tempoTrack, notes[k]) && notes[k].note == r.minNote)
      && (r.maxTime == a.maxTime ||
          exists k :: 0 <= k < |notes| && Counts(tempoTrack, notes[k]) &&
            (notes[k].startTime == r.maxTime || notes[k].stopTime == r.maxTime))
    decreases |notes|
  {
    if notes != [] {
      var init := notes[..|notes| - 1];
      AggregateTrackBounds(a, tempoTrack, init);
      assert forall k :: 0 <= k < |init| ==> notes[k] == init[k];
    }
  }

  /** The aggregates after the tracks in order, from `a`. */
  function AggregateSong(a: Aggregates, views: seq<TrackData>): Aggregates
    decreases |views|
  {
    if views == [] then a
    else
      var last := views[|views| - 1];
      AggregateTrack(AggregateSong(a, views[..|views| - 1]), last.info.tempoTrack, last.notes)
  }

  /** What the song's aggregates mean (midi.c:659-661): the highest and
      lowest pitch and the latest start or stop time over the counted notes
      of all tracks, or the starting value where no note goes past it. */
  lemma {:induction false} AggregateSongBounds(a: Aggregates, views: seq<TrackData>)
    ensures var r := AggregateSong(a, views);
      && (forall i, k :: 0 <= i < |views| && 0 <= k < |views[i].notes| && Counts(views[i].info.tempoTrack, views[i].notes[k]) ==>
            && r.minNote <= views[i].notes[k].note <= r.maxNote
            && views[i].notes[k].startTime <= r.maxTime && views[i].notes[k].stopTime <= r.maxTime)
      && r.minNote <= a.minNote && a.maxNote <= r.maxNote && a.maxTime <= r.maxTime
      && (r.maxNote == a.maxNote ||
          exists i, k :: 0 <= i < |views| && 0 <= k < |views[i].notes| &&
            Counts(views[i].info.tempoTrack, views[i].notes[k]) && views[i].notes[k].note == r.maxNote)
      && (r.minNote == a.minNote ||
          exists i, k :: 0 <= i < |views| && 0 <= k < |views[i].notes| &&
            Counts(views[i].info.tempoTrack, views[i].notes[k]) && views[i].notes[k].note == r.minNote)
      && (r.maxTime == a.maxTime ||
          exists i, k :: 0 <= i < |views| && 0 <= k < |views[i].notes| &&
            Counts(views[i].info.tempoTrack, views[i].notes[k]) &&
            (views[i].notes[k].startTime == r.maxTime || views[i].notes[k].stopTime == r.maxTime))
    decreases |views|
  {
    if views != [] {
      var init := views[..|views| - 1];
      var last := views[|views| - 1];
      AggregateSongBounds(a, init);
      AggregateTrackBounds(AggregateSong(a, init), last.info.tempoTrack, last.notes);
      assert forall i :: 0 <= i < |init| ==> views[i] == init[i];
    }
  }

  lemma SamePoints(a: seq<Note>, b: seq<Note>)
    requires |a| == |b|
    requires forall k :: 0 <= k < |a| ==> a[k].startTick == b[k].startTick && a[k].tempo == b[k].tempo
    ensures Points(a) == Points(b)
  {
    var p, q := Points(a), Points(b);
    assert forall k :: 0 <= k < |p| ==> p[k] == q[k];
  }

  /** The times of one note (midi.c:640-643): each non-zero tick is converted
      by songTime. */
  method StampNote(song: Song, note: Note) returns (r: Note)
    requires Timed(song)
    ensures r == Stamp(note, SongTimeline(song))
  {
    r := note;
    if note.startTick != 0 {
      var t := SongTime(song, note.startTick);
      r := r.(startTime := t);
    }
    if note.stopTick != 0 {
      var t := SongTime(song, note.stopTick);
      r := r.(stopTime := t);
    }
  }

  lemma AggregateTrackSnoc(a: Aggregates, tempoTrack: bool, notes: seq<Note>, n: Note)
    ensures AggregateTrack(a, tempoTrack, notes + [n])
         == if Counts(tempoTrack, n) then Include(AggregateTrack(a, tempoTrack, notes), n)
            else AggregateTrack(a, tempoTrack, notes)
  {
    assert (notes + [n])[..|notes|] == notes;
  }

  /** The comparisons of midi.c:647-654 for one counted note. */
  method IncludeNote(a: Aggregates, note: Note) returns (r: Aggregates)
    ensures r == Include(a, note)
  {
    var maxTime, minNote, maxNote := a.maxTime, a.minNote, a.maxNote;
    if note.note > maxNote {
      maxNote := note.note;
    }
    if note.note < minNote {
      minNote := note.note;
    }
    if note.startTime > maxTime {
      maxTime := note.startTime;
    }
    if note.stopTime > maxTime {
      maxTime := note.stopTime;
    }
    r := Aggregates(maxTime, minNote, maxNote);
  }

  /** The loop of setNoteTimes over one track (midi.c:636-656): stamps every
      note with its times and folds the counted ones into `a`. */
  method StampTrack(song: Song, tr: nat, ghost tl: Timeline, a: Aggregates) returns (r: Aggregates)
    requires Timed(song) && tr < |song.tracks| && song.tracks[tr].Valid()
    requires tr != 0 ==> song.tracks[0] != song.tracks[tr]
    requires SongTimeline(song) == tl
    modifies song.tracks[tr]
    ensures song.tracks[tr].Valid() && song.tracks[tr].Info() == old(song.tracks[tr].Info())
    ensures song.tracks[tr].Notes() == Stamped(old(song.tracks[tr].Notes()), tl)
    ensures SongTimeline(song) == tl
    ensures r == AggregateTrack(a, song.tracks[tr].tempoTrack, song.tracks[tr].Notes())
  {
    var track := song.tracks[tr];
    ghost var before := track.Notes();
    ghost var original := track.notes;
    ghost var info := track.Info();
    ghost var capacity := track.allocatedNotes;
    r := a;
    var n := 0;
    while n < track.nNotes
      invariant 0 <= n <= track.nNotes == |before| <= |original| == capacity && before == original[..|before|]
      invariant track.Info() == info && track.allocatedNotes == capacity
      invariant track.notes == Stamped(before[..n], tl) + original[n..]
      invariant SongTimeline(song) == tl
      invariant r == AggregateTrack(a, track.tempoTrack, Stamped(before[..n], tl))
    {
      var note := StampSlot(song, tr, n, tl, before, original);
      AggregateTrackSnoc(a, track.tempoTrack, Stamped(before[..n], tl), note);
      if Counts(track.tempoTrack, note) {
        r := IncludeNote(r, note);
      }
      n := n + 1;
    }
    StampedTrack(before, original, tl);
  }

  /** One iteration of the loop of setNoteTimes over a track: the note in
      slot `n` gets its times. Its ticks and tempo stay, so the timeline
      does too, even when the track is the first one. */
  method StampSlot(song: Song, tr: nat, n: nat, ghost tl: Timeline, ghost before: seq<Note>, ghost original: seq<Note>)
    returns (note: Note)
    requires Timed(song) && tr < |song.tracks| && n < song.tracks[tr].nNotes
    requires tr != 0 ==> song.tracks[0] != song.tracks[tr]
    requires SongTimeline(song) == tl
    requires |before| == song.tracks[tr].nNotes <= |original| && before == original[..|before|]
    requires song.tracks[tr].notes == Stamped(before[..n], tl) + original[n..]
    modifies song.tracks[tr]
    ensures note == Stamp(before[n], tl)
    ensures Stamped(before[..n + 1], tl) == Stamped(before[..n], tl) + [note]
    ensures song.tracks[tr].notes == Stamped(before[..n + 1], tl) + original[n + 1..]
    ensures song.tracks[tr].nNotes == old(song.tracks[tr].nNotes)
    ensures song.tracks[tr].allocatedNotes == old(song.tracks[tr].allocatedNotes)
    ensures song.tracks[tr].Info() == old(song.tracks[tr].Info())
    ensures SongTimeline(song) == tl
  {
    var track := song.tracks[tr];
    ghost var pre := track.notes;
    assert track.notes[n] == original[n] == before[n];
    note := StampNote(song, track.notes[n]);
    track.notes := track.notes[n := note];
    StampedSnoc(before, n, tl);
    SlotStamped(Stamped(before[..n], tl), original, n, note);
    assert SongTimeline(song) == tl by {
      if tr == 0 {
        SamePoints(track.Notes(), pre[..track.nNotes]);
      }
    }
  }

  /** Once every slot is stamped, the committed notes are the stamped ones
      and the slots past them are as they were. */
  lemma StampedTrack(before: seq<Note>, original: seq<Note>, tl: Timeline)
    requires |before| <= |original| && before == original[..|before|]
    ensures (Stamped(before[..|before|], tl) + original[|before|..])[..|before|] == Stamped(before, tl)
    ensures (Stamped(before[..|before|], tl) + original[|before|..])[|before|..] == original[|before|..]
  {
    assert before[..|before|] == before;
  }

  lemma StampedSnoc(notes: seq<Note>, n: nat, tl: Timeline)
    requires n < |notes|
    ensures Stamped(notes[..n + 1], tl) == Stamped(notes[..n], tl) + [Stamp(notes[n], tl)]
  {
    assert notes[..n + 1][..n] == notes[..n];
  }

  /** Writing the stamped note into slot `n` extends the stamped prefix. */
  lemma SlotStamped(done: seq<Note>, original: seq<Note>, n: nat, note: Note)
    requires |done| == n < |original|
    ensures (done + original[n..])[n := note] == (done + [note]) + original[n + 1..]
  {
  }

  lemma AggregateSongSnoc(a: Aggregates, views: seq<TrackData>, v: TrackData)
    ensures AggregateSong(a, views + [v]) == AggregateTrack(AggregateSong(a, views), v.info.tempoTrack, v.notes)
  {
    assert (views + [v])[..|views|] == views;
  }

  /** The views with every note stamped with its times. */
  function StampedContents(views: seq<TrackData>, tl: Timeline): seq<TrackData>
  {
    seq(|views|, i requires 0 <= i < |views| => views[i].(notes := Stamped(views[i].notes, tl)))
  }

  /** The tracks before `tr` carry the stamped notes, the others their
      original notes, and every track keeps its flags and its buffer
      invariant. */
  ghost predicate StampedUpTo(tracks: seq<Track>, tr: nat, before: seq<TrackData>, after: seq<TrackData>)
    reads tracks
  {
    && tr <= |tracks| == |before| == |after|
    && (forall i :: 0 <= i < |tracks| ==> tracks[i].index == i)
    && (forall i :: 0 <= i < tr ==> Holds(tracks[i], before[i].info, after[i].notes))
    && (forall i :: tr <= i < |tracks| ==> Holds(tracks[i], before[i].info, before[i].notes))
  }

  /** A track keeping its buffer invariant, with these flags and texts and
      these notes. */
  ghost predicate Holds(t: Track, info: TrackInfo, notes: seq<Note>)
    reads t
  {
    t.Valid() && t.Info() == info && t.Notes() == notes
  }

  /** The invariant of the track loop of setNoteTimes after `tr` tracks:
      those carry their stamped notes, the timeline is the one the pass
      started from, and the aggregates cover the stamped tracks. */
  ghost predicate StampLoop(song: Song, tr: nat, tl: Timeline, before: seq<TrackData>, after: seq<TrackData>, a: Aggregates)
    reads song.tracks
  {
    && Timed(song) && StampedUpTo(song.tracks, tr, before, after)
    && SongTimeline(song) == tl && after == StampedContents(before, tl)
    && a == AggregateSong(Initial, after[..tr])
  }

  /** One iteration of the track loop of setNoteTimes. */
  method StampNextTrack(song: Song, tr: nat, ghost tl: Timeline, ghost before: seq<TrackData>, ghost after: seq<TrackData>, a: Aggregates)
    returns (r: Aggregates)
    requires StampLoop(song, tr, tl, before, after, a) && tr < |song.tracks|
    modifies song.tracks[tr]
    ensures StampLoop(song, tr + 1, tl, before, after, r)
  {
    r := StampTrack(song, tr, tl, a);
    AggregateNext(before, after, tr, tl, a);
    assert forall i :: 0 <= i < |song.tracks| && i != tr ==> unchanged(song.tracks[i]);
    assert StampedUpTo(song.tracks, tr + 1, before, after);
  }

  /** Folding the stamped track `tr` into the aggregates of the tracks before
      it gives the aggregates of the tracks up to it. */
  lemma AggregateNext(before: seq<TrackData>, after: seq<TrackData>, tr: nat, tl: Timeline, a: Aggregates)
    requires tr < |before| && after == StampedContents(before, tl)
    requires a == AggregateSong(Initial, after[..tr])
    ensures AggregateTrack(a, before[tr].info.tempoTrack, Stamped(before[tr].notes, tl)) == AggregateSong(Initial, after[..tr + 1])
    ensures after[tr].notes == Stamped(before[tr].notes, tl)
  {
    assert after[..tr + 1] == after[..tr] + [after[tr]];
    AggregateSongSnoc(Initial, after[..tr], after[tr]);
  }

  /** The track loop of setNoteTimes (midi.c:633-658): every track ends
      up with the stamped notes of `before`, and the aggregates cover them
      all. */
  method StampTracks(song: Song, ghost tl: Timeline, ghost before: seq<TrackData>, ghost after: seq<TrackData>)
    returns (aggregates: Aggregates)
    requires Timed(song) && StampedUpTo(song.tracks, 0, before, after)
    requires SongTimeline(song) == tl && after == StampedContents(before, tl)
    modifies song.tracks
    ensures StampedUpTo(song.tracks, |song.tracks|, before, after)
    ensures aggregates == AggregateSong(Initial, after)
  {
    aggregates := Initial;
    var tr := 0;
    while tr < song.nTracks
      invariant tr <= song.nTracks == |song.tracks|
      invariant StampLoop(song, tr, tl, before, after, aggregates)
    {
      aggregates := StampNextTrack(song, tr, tl, before, after, aggregates);
      tr := tr + 1;
    }
    assert after[..tr] == after;
  }

  /** Once every track is stamped, the views are the stamped views and the
      aggregates cover all of them. */
  lemma AllStamped(tracks: seq<Track>, before: seq<TrackData>, after: seq<TrackData>, tl: Timeline)
    requires StampedUpTo(tracks, |tracks|, before, after) && after == StampedContents(before, tl)
    ensures TracksValid(tracks)
    ensures Contents(tracks) == after
  {
    var now := Contents(tracks);
    assert forall i :: 0 <= i < |now| ==> now[i] == after[i];
  }

  /** setNoteTimes (midi.c:621-664): stamps every note of every track with
      the times of its non-zero ticks on the song's timeline, which the pass
      leaves as it was, and records the latest time and the pitch range of
      the non-pedal notes outside tempo tracks. */
  method SetNoteTimes(song: Song)
    requires song.Valid()
    modifies song, song.tracks
    ensures TracksValid(song.tracks)
    ensures Contents(song.tracks) == StampedContents(old(Contents(song.tracks)), old(SongTimeline(song)))
    ensures Aggregates(song.maxTime, song.minNote, song.maxNote) == AggregateSong(Initial, Contents(song.tracks))
  {
    ghost var tl := SongTimeline(song);
    ghost var before := Contents(song.tracks);
    ghost var after := StampedContents(before, tl);
    var aggregates := StampTracks(song, tl, before, after);
    song.maxTime, song.minNote, song.maxNote := aggregates.maxTime, aggregates.minNote, aggregates.maxNote;
    AllStamped(song.tracks, before, after, tl);
  }

  /** The timeline the first of a table of track views defines, under the
      song's default tempo and division. */
  function ViewsTimeline(tempo: nat, division: int, views: seq<TrackData>): Timeline
  {
    if |views| > 0 then Timeline(tempo, division, views[0].info.tempoTrack, Points(views[0].notes))
    else Timeline(tempo, division, false, [])
  }

  /** A song's timeline is the one its track views define. */
  lemma SongTimelineOfContents(song: Song)
    requires song.Valid()
    ensures SongTimeline(song) == ViewsTimeline(song.tempo, song.division, Contents(song.tracks))
  {
  }

  /** Stamping leaves the timeline the track views define as it was, so the
      times setNoteTimes computes do not depend on the order it stamps the
      tracks in, the first (tempo) track included. */
  lemma StampingKeepsTimeline(tempo: nat, division: int, views: seq<TrackData>, tl: Timeline)
    ensures ViewsTimeline(tempo, division, StampedContents(views, tl)) == ViewsTimeline(tempo, division, views)
  {
    if |views| > 0 {
      StampKeepsPoints(views[0].notes, tl);
    }
  }
}
