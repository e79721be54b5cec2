/**
 * The decode loop of `process_mp3_file`, over an abstract packet source and
 * an abstract key-finder engine.
 *
 * The packet reader is replaced by the sequence of results it yields
 * (`Event`); reaching the end of the sequence stands for the end-of-stream
 * error, which the source handles like every read error other than a reset.
 * The engine is an oracle from the sample planes fed so far to an `i32` key
 * code; its handle is tracked by a ghost log of engine calls, so that the
 * pairing of `init` and `destroy` can be stated on every exit.
 *
 * `Process` is the declarative specification: the loop stops at the first
 * event that ends it, the record carries the estimate made after the last
 * fed plane, and the engine log is one `init`, one feed-then-estimate pair
 * per fed plane, and one `destroy`. `ProcessMp3File` is the loop itself,
 * proved to compute `Process`.
 */
module DecodeSession {
  import opened SongKeys
  import opened SongMetas

  /** Rust's `u32`: sample rates and track identifiers. */
  newtype u32 = x: int | 0 <= x < 0x1_0000_0000

  datatype Option<T> = None | Some(value: T)

  /** An opaque reference to one plane of `f32` samples. */
  type PlaneRef = nat

  /** What decoding one packet gives. */
  datatype Decoded =
    | F32(planes: seq<PlaneRef>)   // an `f32` buffer with these channel planes
    | OtherFormat                  // a buffer in any other sample format
    | IoError                      // `Error::IoError`
    | DecodeError                  // `Error::DecodeError`
    | OtherError                   // any other decode error

  /** What one call of the packet reader gives. */
  datatype Event =
    | ResetRequired                          // `Error::ResetRequired`
    | ReadError                              // any other read error
    | Packet(trackId: u32, decoded: Decoded) // a packet and the result of decoding it

  /** The selected track: its identifier and its declared sample rate, if any. */
  datatype Track = Track(id: u32, sampleRate: Option<u32>)

  /** The panics of the source (`panic!` and `unimplemented!`), kept apart. */
  datatype PanicReason =
    | NoSampleRate               // `panic!` when the track declares no sample rate
    | ResetUnimplemented         // `unimplemented!` on `ResetRequired`
    | SampleFormatUnimplemented  // `unimplemented!` on a non-`f32` buffer
    | FatalDecodeError           // `panic!` on any other decode error

  /** How `process_mp3_file` exits: a returned `Option<SongMeta>`, or a panic. */
  datatype Outcome = Returned(meta: Option<SongMeta>) | Panicked(reason: PanicReason)

  /** The calls into the key-finder engine. */
  datatype EngineCall =
    | InitAudioData(frameRate: u32)
    | AddToSamples(plane: PlaneRef)
    | KeyOfAudio
    | DestroyAudioData

  // ---------------------------------------------------------------------------
  // The specification
  // ---------------------------------------------------------------------------

  /** Events the loop passes over: other tracks' packets, and I/O and malformed-data errors. */
  predicate Skipped(e: Event, id: u32)
  {
    e.Packet? && (e.trackId != id || e.decoded.IoError? || e.decoded.DecodeError?)
  }

  /** Events whose first plane is fed to the engine: `f32` buffers with at least one plane. */
  predicate Feeds(e: Event, id: u32)
  {
    e.Packet? && e.trackId == id && e.decoded.F32? && |e.decoded.planes| > 0
  }

  /** Events that end the loop. */
  predicate Ends(e: Event, id: u32)
  {
    !Skipped(e, id) && !Feeds(e, id)
  }

  /** The index of the first event that ends the loop, or the length if none does. */
  function StopIndex(events: seq<Event>, id: u32): (n: nat)
    ensures n <= |events|
    ensures n < |events| ==> Ends(events[n], id)
    ensures forall j :: 0 <= j < n ==> !Ends(events[j], id)
  {
    if events == [] then 0
    else if Ends(events[0], id) then 0
    else 1 + StopIndex(events[1..], id)
  }

  /** StopIndex is the only index with its two defining properties. */
  lemma StopIndexUnique(events: seq<Event>, id: u32, m: nat)
    requires m <= |events|
    requires m < |events| ==> Ends(events[m], id)
    requires forall j :: 0 <= j < m ==> !Ends(events[j], id)
    ensures StopIndex(events, id) == m
  {
  }

  /** The planes fed to the engine for these events, in order: the first plane of each feeding packet. */
  function FedPlanes(events: seq<Event>, id: u32): (fed: seq<PlaneRef>)
    ensures |fed| <= |events|
  {
    if events == [] then []
    else
      var last := events[|events| - 1];
      FedPlanes(events[..|events| - 1], id) + (if Feeds(last, id) then [last.decoded.planes[0]] else [])
  }

  /** The key after feeding these planes: the engine's last estimate, or `Unknown` if nothing was fed. */
  function KeyAfter(fed: seq<PlaneRef>, keyOfAudio: seq<PlaneRef> -> i32): SongKey
  {
    if fed == [] then Unknown else FromKeyT(keyOfAudio(fed))
  }

  /** The record after feeding these planes. */
  function MetaAfter(path: string, fed: seq<PlaneRef>, keyOfAudio: seq<PlaneRef> -> i32): (m: SongMeta)
    ensures Valid(m) && m.key == KeyAfter(fed, keyOfAudio)
    ensures m.path == path && m.artist == "" && m.title == ""
  {
    if fed == [] then NewSongMeta(path) else SetKey(NewSongMeta(path), FromKeyT(keyOfAudio(fed)))
  }

  /** How the loop exits on an event that ends it. */
  function ExitOn(e: Event, id: u32, meta: SongMeta): (o: Outcome)
    requires Ends(e, id)
    ensures o.Returned? <==> e.ReadError? || e == Packet(id, F32([]))
    ensures o.Returned? ==> o.meta == (if e.ReadError? then Some(meta) else None)
    ensures o.Panicked? ==> o.reason != NoSampleRate
  {
    match e
    case ResetRequired => Panicked(ResetUnimplemented)
    case ReadError => Returned(Some(meta))
    case Packet(_, decoded) =>
      match decoded
      case F32(_) => Returned(None)
      case OtherFormat => Panicked(SampleFormatUnimplemented)
      case OtherError => Panicked(FatalDecodeError)
  }

  /** One feed-then-estimate pair per fed plane. */
  function FeedCalls(fed: seq<PlaneRef>): (calls: seq<EngineCall>)
    ensures |calls| == 2 * |fed|
  {
    if fed == [] then []
    else FeedCalls(fed[..|fed| - 1]) + [AddToSamples(fed[|fed| - 1]), KeyOfAudio]
  }

  /** The result of `process_mp3_file` on this track and packet stream, and the engine calls it makes. */
  function Process(path: string, track: Track, events: seq<Event>, keyOfAudio: seq<PlaneRef> -> i32)
    : (r: (Outcome, seq<EngineCall>))
    ensures r.0 == Panicked(NoSampleRate) <==> track.sampleRate.None?
    ensures track.sampleRate.None? ==> r.1 == []
    ensures r.0.Returned? && r.0.meta.Some? ==> Valid(r.0.meta.value) && r.0.meta.value.path == path
  {
    match track.sampleRate
    case None => (Panicked(NoSampleRate), [])
    case Some(rate) =>
      var n := StopIndex(events, track.id);
      var fed := FedPlanes(events[..n], track.id);
      var meta := MetaAfter(path, fed, keyOfAudio);
      var outcome := if n == |events| then Returned(Some(meta)) else ExitOn(events[n], track.id, meta);
      (outcome, [InitAudioData(rate)] + FeedCalls(fed) + [DestroyAudioData])
  }

  /** Process, once the loop has run without stopping up to index i and stops there. */
  lemma {:induction false} ProcessStopsAt(path: string, track: Track, events: seq<Event>,
                                          keyOfAudio: seq<PlaneRef> -> i32, i: nat)
    requires track.sampleRate.Some? && i <= |events|
    requires forall j :: 0 <= j < i ==> !Ends(events[j], track.id)
    requires i < |events| ==> Ends(events[i], track.id)
    ensures var fed := FedPlanes(events[..i], track.id);
      var meta := MetaAfter(path, fed, keyOfAudio);
      Process(path, track, events, keyOfAudio).0 ==
        (if i == |events| then Returned(Some(meta)) else ExitOn(events[i], track.id, meta)) &&
      Process(path, track, events, keyOfAudio).1 ==
        [InitAudioData(track.sampleRate.value)] + FeedCalls(fed) + [DestroyAudioData]
  {
    StopIndexUnique(events, track.id, i);
  }

  /** One more event that the loop passes over feeds nothing. */
  lemma {:induction false} SkipStep(events: seq<Event>, id: u32, i: nat)
    requires i < |events| && Skipped(events[i], id)
    ensures FedPlanes(events[..i + 1], id) == FedPlanes(events[..i], id)
  {
    assert events[..i + 1][..i] == events[..i];
  }

  /** One more feeding event appends its first plane, and one feed-then-estimate pair. */
  lemma {:induction false} FeedStep(events: seq<Event>, id: u32, i: nat)
    requires i < |events| && Feeds(events[i], id)
    ensures var fed := FedPlanes(events[..i], id);
      var p := events[i].decoded.planes[0];
      FedPlanes(events[..i + 1], id) == fed + [p] &&
      FeedCalls(fed + [p]) == FeedCalls(fed) + [AddToSamples(p), KeyOfAudio]
  {
    assert events[..i + 1][..i] == events[..i];
    var fed := FedPlanes(events[..i], id);
    assert (fed + [events[i].decoded.planes[0]])[..|fed|] == fed;
  }

  /**
   * Regrouping of the engine log after one feed-then-estimate pair. Stated
   * once here, so that the loop does not leave this step to the solver's
   * sequence reasoning, which keeps the loop's proof cheap.
   */
  lemma LogAppend(log: seq<EngineCall>, done: seq<EngineCall>, x: EngineCall, y: EngineCall)
    ensures log + done + [x] + [y] == log + (done + [x, y])
  {
  }

  // ---------------------------------------------------------------------------
  // The decode loop
  // ---------------------------------------------------------------------------

  method ProcessMp3File(path: string, track: Track, events: seq<Event>, keyOfAudio: seq<PlaneRef> -> i32)
    returns (outcome: Outcome, ghost calls: seq<EngineCall>)
    ensures outcome == Process(path, track, events, keyOfAudio).0
    ensures calls == Process(path, track, events, keyOfAudio).1
  {
    if track.sampleRate.None? {
      outcome, calls := Panicked(NoSampleRate), [];
      return;
    }
    var rate := track.sampleRate.value;
    // The engine's accumulated samples; its handle lives from here until the release after the loop.
    var fed: seq<PlaneRef> := [];
    calls := [InitAudioData(rate)];
    var songMeta := NewSongMeta(path);
    var i := 0;
    while true
      invariant 0 <= i <= |events|
      invariant forall j :: 0 <= j < i ==> !Ends(events[j], track.id)
      invariant fed == FedPlanes(events[..i], track.id)
      invariant songMeta == MetaAfter(path, fed, keyOfAudio)
      invariant calls == [InitAudioData(rate)] + FeedCalls(fed)
      decreases |events| - i
    {
      if i == |events| {
        // end of stream: `next_packet` fails with an error other than a reset
        outcome := Returned(Some(songMeta));
        ProcessStopsAt(path, track, events, keyOfAudio, i);
        break;
      }
      var event := events[i];
      match event {
        case ResetRequired =>
          outcome := Panicked(ResetUnimplemented);
          ProcessStopsAt(path, track, events, keyOfAudio, i);
          break;
        case ReadError =>
          outcome := Returned(Some(songMeta));
          ProcessStopsAt(path, track, events, keyOfAudio, i);
          break;
        case Packet(trackId, decoded) =>
          if trackId != track.id {
            SkipStep(events, track.id, i);
            i := i + 1;
            continue;
          }
          match decoded {
            case F32(planes) =>
              if |planes| == 0 {
                outcome := Returned(None);
                ProcessStopsAt(path, track, events, keyOfAudio, i);
                break;
              }
              FeedStep(events, track.id, i);
              LogAppend([InitAudioData(rate)], FeedCalls(fed), AddToSamples(planes[0]), KeyOfAudio);
              fed := fed + [planes[0]];
              calls := calls + [AddToSamples(planes[0])];
              var code := keyOfAudio(fed);
              calls := calls + [KeyOfAudio];
              var songKey := FromKeyT(code);
              songMeta := SetKey(songMeta, songKey);
            case OtherFormat =>
              outcome := Panicked(SampleFormatUnimplemented);
              ProcessStopsAt(path, track, events, keyOfAudio, i);
              break;
            case IoError =>
              SkipStep(events, track.id, i);
              i := i + 1;
              continue;
            case DecodeError =>
              SkipStep(events, track.id, i);
              i := i + 1;
              continue;
            case OtherError =>
              outcome := Panicked(FatalDecodeError);
              ProcessStopsAt(path, track, events, keyOfAudio, i);
              break;
          }
      }
      i := i + 1;
    }
    // the deferred release runs on every exit from here on
    calls := calls + [DestroyAudioData];
  }

  // ---------------------------------------------------------------------------
  // Properties of the specification
  // ---------------------------------------------------------------------------

  lemma {:induction false} FedPlanesAppend(x: seq<Event>, y: seq<Event>, id: u32)
    ensures FedPlanes(x + y, id) == FedPlanes(x, id) + FedPlanes(y, id)
    decreases |y|
  {
    if y == [] {
      assert x + y == x;
    } else {
      var y' := y[..|y| - 1];
      assert (x + y)[..|x + y| - 1] == x + y';
      FedPlanesAppend(x, y', id);
    }
  }

  /** Some packet of the selected track among these events holds an `f32` buffer whose first plane is p. */
  predicate FirstPlaneOfSomePacket(events: seq<Event>, id: u32, p: PlaneRef)
  {
    exists i :: 0 <= i < |events| && Feeds(events[i], id) && events[i].decoded.planes[0] == p
  }

  /** Every fed plane is the first plane of a packet of the selected track holding an `f32` buffer. */
  lemma {:induction false} FedPlanesComeFromF32Packets(events: seq<Event>, id: u32)
    ensures forall m :: 0 <= m < |FedPlanes(events, id)| ==> FirstPlaneOfSomePacket(events, id, FedPlanes(events, id)[m])
    decreases |events|
  {
    if events != [] {
      var init, last := events[..|events| - 1], events[|events| - 1];
      FedPlanesComeFromF32Packets(init, id);
      var fed, fed' := FedPlanes(events, id), FedPlanes(init, id);
      assert fed == fed' + (if Feeds(last, id) then [last.decoded.planes[0]] else []);
      forall m | 0 <= m < |fed|
        ensures FirstPlaneOfSomePacket(events, id, fed[m])
      {
        if m < |fed'| {
          assert FirstPlaneOfSomePacket(init, id, fed'[m]);
          var i :| 0 <= i < |init| && Feeds(init[i], id) && init[i].decoded.planes[0] == fed'[m];
          assert events[i] == init[i];
        } else {
          assert Feeds(events[|events| - 1], id) && events[|events| - 1].decoded.planes[0] == fed[m];
        }
      }
    }
  }

  /** Inserting an event that does not end the loop shifts the stop index past it, if it comes first. */
  lemma {:induction false} StopIndexInsert(a: seq<Event>, e: Event, b: seq<Event>, id: u32)
    requires !Ends(e, id)
    ensures var n := StopIndex(a + b, id);
      StopIndex(a + [e] + b, id) == if n < |a| then n else n + 1
  {
    var ab, aeb := a + b, a + [e] + b;
    var n := StopIndex(ab, id);
    var m := if n < |a| then n else n + 1;
    assert m < |aeb| ==> aeb[m] == ab[n];
    forall j | 0 <= j < m
      ensures !Ends(aeb[j], id)
    {
      if j < |a| {
        assert aeb[j] == ab[j];
      } else if j > |a| {
        assert aeb[j] == ab[j - 1];
      }
    }
    StopIndexUnique(aeb, id, m);
  }

  /** Before the stop index, a skipped event contributes no plane. */
  lemma {:induction false} SkippedEventFeedsNothing(a: seq<Event>, e: Event, c: seq<Event>, id: u32)
    requires Skipped(e, id)
    ensures FedPlanes(a + [e] + c, id) == FedPlanes(a + c, id)
  {
    FedPlanesAppend(a + [e], c, id);
    FedPlanesAppend(a, [e], id);
    FedPlanesAppend(a, c, id);
    assert [e][..0] == [];
  }

  /**
   * A packet of another track, or one that fails with an I/O or malformed-data
   * error, changes neither the outcome nor the engine calls.
   */
  lemma {:induction false} SkippedEventChangesNothing(path: string, track: Track, a: seq<Event>, e: Event,
                                                      b: seq<Event>, keyOfAudio: seq<PlaneRef> -> i32)
    requires Skipped(e, track.id)
    ensures Process(path, track, a + [e] + b, keyOfAudio) == Process(path, track, a + b, keyOfAudio)
  {
    if track.sampleRate.Some? {
      var id := track.id;
      var ab, aeb := a + b, a + [e] + b;
      var n := StopIndex(ab, id);
      StopIndexInsert(a, e, b, id);
      var m := StopIndex(aeb, id);
      assert m < |aeb| <==> n < |ab|;
      assert m < |aeb| ==> aeb[m] == ab[n];
      if n < |a| {
        assert aeb[..m] == ab[..n];
      } else {
        var c := ab[|a|..n];
        assert aeb[..m] == a + [e] + c;
        assert ab[..n] == a + c;
        SkippedEventFeedsNothing(a, e, c, id);
      }
      ProcessStopsAt(path, track, ab, keyOfAudio, n);
      ProcessStopsAt(path, track, aeb, keyOfAudio, m);
    }
  }

  /**
   * The loop stops at the first event that ends it: the outcome is decided by
   * that event and the record built so far, and the engine calls are the
   * feeds for the events before it, then the release.
   */
  lemma {:induction false} FirstEndingEventDecides(path: string, track: Track, a: seq<Event>, e: Event,
                                                   b: seq<Event>, keyOfAudio: seq<PlaneRef> -> i32)
    requires track.sampleRate.Some?
    requires forall j :: 0 <= j < |a| ==> !Ends(a[j], track.id)
    requires Ends(e, track.id)
    ensures var fed := FedPlanes(a, track.id);
      Process(path, track, a + [e] + b, keyOfAudio) ==
        (ExitOn(e, track.id, MetaAfter(path, fed, keyOfAudio)),
         [InitAudioData(track.sampleRate.value)] + FeedCalls(fed) + [DestroyAudioData])
  {
    var events := a + [e] + b;
    assert events[..|a|] == a;
    assert events[|a|] == e;
    ProcessStopsAt(path, track, events, keyOfAudio, |a|);
  }

  /** A read error other than a reset returns the record built so far. */
  lemma {:induction false} ReadErrorReturnsRecord(path: string, track: Track, a: seq<Event>, b: seq<Event>,
                                                  keyOfAudio: seq<PlaneRef> -> i32)
    requires track.sampleRate.Some?
    requires forall j :: 0 <= j < |a| ==> !Ends(a[j], track.id)
    ensures Process(path, track, a + [ReadError] + b, keyOfAudio).0 ==
      Returned(Some(MetaAfter(path, FedPlanes(a, track.id), keyOfAudio)))
  {
    FirstEndingEventDecides(path, track, a, ReadError, b, keyOfAudio);
  }

  /** Running out of packets returns the record built from every fed plane. */
  lemma {:induction false} EndOfStreamReturnsRecord(path: string, track: Track, events: seq<Event>,
                                                    keyOfAudio: seq<PlaneRef> -> i32)
    requires track.sampleRate.Some?
    requires forall j :: 0 <= j < |events| ==> !Ends(events[j], track.id)
    ensures Process(path, track, events, keyOfAudio).0 ==
      Returned(Some(MetaAfter(path, FedPlanes(events, track.id), keyOfAudio)))
  {
    ProcessStopsAt(path, track, events, keyOfAudio, |events|);
    assert events[..|events|] == events;
  }

  /** An `f32` buffer of the selected track with no planes returns no record. */
  lemma {:induction false} ZeroPlanesReturnsNone(path: string, track: Track, a: seq<Event>, b: seq<Event>,
                                                 keyOfAudio: seq<PlaneRef> -> i32)
    requires track.sampleRate.Some?
    requires forall j :: 0 <= j < |a| ==> !Ends(a[j], track.id)
    ensures Process(path, track, a + [Packet(track.id, F32([]))] + b, keyOfAudio).0 == Returned(None)
  {
    FirstEndingEventDecides(path, track, a, Packet(track.id, F32([])), b, keyOfAudio);
  }

  /** A reset, a non-`f32` buffer and any other decode error each panic, each for its own reason. */
  lemma {:induction false} FatalEventsPanic(path: string, track: Track, a: seq<Event>, b: seq<Event>,
                                            keyOfAudio: seq<PlaneRef> -> i32)
    requires track.sampleRate.Some?
    requires forall j :: 0 <= j < |a| ==> !Ends(a[j], track.id)
    ensures Process(path, track, a + [ResetRequired] + b, keyOfAudio).0 == Panicked(ResetUnimplemented)
    ensures Process(path, track, a + [Packet(track.id, OtherFormat)] + b, keyOfAudio).0
         == Panicked(SampleFormatUnimplemented)
    ensures Process(path, track, a + [Packet(track.id, OtherError)] + b, keyOfAudio).0 == Panicked(FatalDecodeError)
  {
    FirstEndingEventDecides(path, track, a, ResetRequired, b, keyOfAudio);
    FirstEndingEventDecides(path, track, a, Packet(track.id, OtherFormat), b, keyOfAudio);
    FirstEndingEventDecides(path, track, a, Packet(track.id, OtherError), b, keyOfAudio);
  }

  /** A returned record keeps `cofKey` in step with `key`, which is the last estimate or `Unknown`. */
  lemma {:induction false} ReturnedRecordIsValid(path: string, track: Track, events: seq<Event>,
                                                 keyOfAudio: seq<PlaneRef> -> i32)
    requires Process(path, track, events, keyOfAudio).0.Returned?
    requires Process(path, track, events, keyOfAudio).0.meta.Some?
    ensures var m := Process(path, track, events, keyOfAudio).0.meta.value;
      Valid(m) && m.path == path && m.artist == "" && m.title == "" &&
      m.key == KeyAfter(FedPlanes(events[..StopIndex(events, track.id)], track.id), keyOfAudio)
  {
    var o := Process(path, track, events, keyOfAudio).0;
    assert track.sampleRate.Some?;
    var n := StopIndex(events, track.id);
    var meta := MetaAfter(path, FedPlanes(events[..n], track.id), keyOfAudio);
    ProcessStopsAt(path, track, events, keyOfAudio, n);
    if n < |events| {
      assert o == ExitOn(events[n], track.id, meta);
      assert events[n] == ReadError;
    }
    assert o.meta.value == meta;
  }


  /**
   * The engine discipline: the handle is created first and only once, released
   * last and only once, and in between each call that feeds a plane is
   * immediately followed by one estimate.
   */
  predicate HandleDiscipline(calls: seq<EngineCall>)
  {
    |calls| >= 2 && |calls| % 2 == 0 &&
    (forall j :: 0 <= j < |calls| ==> (calls[j].InitAudioData? <==> j == 0)) &&
    (forall j :: 0 <= j < |calls| ==> (calls[j].DestroyAudioData? <==> j == |calls| - 1)) &&
    (forall j :: 0 < j < |calls| - 1 ==> (calls[j].AddToSamples? <==> j % 2 == 1) && (calls[j].KeyOfAudio? <==> j % 2 == 0))
  }

  lemma {:induction false} FeedCallsAt(fed: seq<PlaneRef>)
    ensures forall j :: 0 <= j < 2 * |fed| ==>
      FeedCalls(fed)[j] == if j % 2 == 0 then AddToSamples(fed[j / 2]) else KeyOfAudio
    decreases |fed|
  {
    if fed != [] {
      var init := fed[..|fed| - 1];
      FeedCallsAt(init);
      forall j | 0 <= j < 2 * |fed|
        ensures FeedCalls(fed)[j] == if j % 2 == 0 then AddToSamples(fed[j / 2]) else KeyOfAudio
      {
        if j < 2 * |init| {
          assert FeedCalls(fed)[j] == FeedCalls(init)[j];
          assert fed[j / 2] == init[j / 2];
        }
      }
    }
  }

  /** `init`, the feed-then-estimate pairs, `destroy`: the calls of every session that created the handle. */
  lemma {:induction false} BracketedFeedsKeepDiscipline(rate: u32, fed: seq<PlaneRef>)
    ensures HandleDiscipline([InitAudioData(rate)] + FeedCalls(fed) + [DestroyAudioData])
  {
    var calls := [InitAudioData(rate)] + FeedCalls(fed) + [DestroyAudioData];
    FeedCallsAt(fed);
    forall j | 0 < j < |calls| - 1
      ensures calls[j] == FeedCalls(fed)[j - 1]
    {
    }
  }

  /** Every exit after the handle was created releases it exactly once; without a sample rate none is created. */
  lemma {:induction false} EngineHandleDiscipline(path: string, track: Track, events: seq<Event>,
                                                  keyOfAudio: seq<PlaneRef> -> i32)
    ensures var calls := Process(path, track, events, keyOfAudio).1;
      (track.sampleRate.None? ==> calls == []) &&
      (track.sampleRate.Some? ==> HandleDiscipline(calls) && calls[0] == InitAudioData(track.sampleRate.value))
  {
    if track.sampleRate.Some? {
      BracketedFeedsKeepDiscipline(track.sampleRate.value, FedPlanes(events[..StopIndex(events, track.id)], track.id));
    }
  }

  lemma {:induction false} FeedCallsAppend(x: seq<PlaneRef>, y: seq<PlaneRef>)
    ensures FeedCalls(x + y) == FeedCalls(x) + FeedCalls(y)
    decreases |y|
  {
    if y == [] {
      assert x + y == x;
    } else {
      var y' := y[..|y| - 1];
      assert (x + y)[..|x + y| - 1] == x + y';
      FeedCallsAppend(x, y');
    }
  }

  /** The planes fed for a single event. */
  lemma {:induction false} OneEvent(e: Event, id: u32)
    ensures FedPlanes([e], id) == if Feeds(e, id) then [e.decoded.planes[0]] else []
  {
    assert [e][..0] == [];
  }

  lemma {:induction false} OnePlane(p: PlaneRef)
    ensures FeedCalls([p]) == [AddToSamples(p), KeyOfAudio]
  {
    assert [p][..0] == [];
  }

  /** Four feeding events feed their first planes in order. */
  lemma {:induction false} FourFeedingEvents(e1: Event, e2: Event, e3: Event, e4: Event, id: u32)
    requires Feeds(e1, id) && Feeds(e2, id) && Feeds(e3, id) && Feeds(e4, id)
    ensures var p1, p2, p3, p4 := e1.decoded.planes[0], e2.decoded.planes[0], e3.decoded.planes[0], e4.decoded.planes[0];
      FedPlanes([e1, e2, e3, e4], id) == [p1, p2, p3, p4]
  {
    OneEvent(e1, id);
    OneEvent(e2, id);
    OneEvent(e3, id);
    OneEvent(e4, id);
    assert [e1, e2, e3, e4] == [e1] + [e2] + [e3] + [e4];
    FedPlanesAppend([e1], [e2], id);
    FedPlanesAppend([e1] + [e2], [e3], id);
    FedPlanesAppend([e1] + [e2] + [e3], [e4], id);
  }

  /** Four fed planes give four feed-then-estimate pairs, in order. */
  lemma {:induction false} FourPlanes(p1: PlaneRef, p2: PlaneRef, p3: PlaneRef, p4: PlaneRef)
    ensures FeedCalls([p1, p2, p3, p4]) == [AddToSamples(p1), KeyOfAudio, AddToSamples(p2), KeyOfAudio,
                                            AddToSamples(p3), KeyOfAudio, AddToSamples(p4), KeyOfAudio]
  {
    OnePlane(p1);
    OnePlane(p2);
    OnePlane(p3);
    OnePlane(p4);
    assert [p1, p2, p3, p4] == [p1] + [p2] + [p3] + [p4];
    FeedCallsAppend([p1], [p2]);
    FeedCallsAppend([p1] + [p2], [p3]);
    FeedCallsAppend([p1] + [p2] + [p3], [p4]);
  }

  /** The whole engine log of a session that fed four planes. */
  lemma {:induction false} FourPlaneLog(rate: u32, p1: PlaneRef, p2: PlaneRef, p3: PlaneRef, p4: PlaneRef)
    ensures [InitAudioData(rate)] + FeedCalls([p1, p2, p3, p4]) + [DestroyAudioData] ==
      [InitAudioData(rate), AddToSamples(p1), KeyOfAudio, AddToSamples(p2), KeyOfAudio,
       AddToSamples(p3), KeyOfAudio, AddToSamples(p4), KeyOfAudio, DestroyAudioData]
  {
    FourPlanes(p1, p2, p3, p4);
  }

  /** Four decoded packets of the selected track, then the end of the stream. */
  lemma {:induction false} FourPacketSession(path: string, id: u32, rate: u32, keyOfAudio: seq<PlaneRef> -> i32,
                                             p1: PlaneRef, p2: PlaneRef, p3: PlaneRef, p4: PlaneRef)
    ensures var events := [Packet(id, F32([p1])), Packet(id, F32([p2])), Packet(id, F32([p3])), Packet(id, F32([p4]))];
      Process(path, Track(id, Some(rate)), events, keyOfAudio) ==
        (Returned(Some(SetKey(NewSongMeta(path), FromKeyT(keyOfAudio([p1, p2, p3, p4]))))),
         [InitAudioData(rate), AddToSamples(p1), KeyOfAudio, AddToSamples(p2), KeyOfAudio,
          AddToSamples(p3), KeyOfAudio, AddToSamples(p4), KeyOfAudio, DestroyAudioData])
  {
    var track := Track(id, Some(rate));
    var events := [Packet(id, F32([p1])), Packet(id, F32([p2])), Packet(id, F32([p3])), Packet(id, F32([p4]))];
    var fed := [p1, p2, p3, p4];
    assert forall j :: 0 <= j < |events| ==> !Ends(events[j], id);
    ProcessStopsAt(path, track, events, keyOfAudio, 4);
    assert events[..4] == events;
    FourFeedingEvents(events[0], events[1], events[2], events[3], id);
    assert Process(path, track, events, keyOfAudio).0 == Returned(Some(MetaAfter(path, fed, keyOfAudio)));
    assert MetaAfter(path, fed, keyOfAudio) == SetKey(NewSongMeta(path), FromKeyT(keyOfAudio(fed)));
    assert Process(path, track, events, keyOfAudio).1 == [InitAudioData(rate)] + FeedCalls(fed) + [DestroyAudioData];
    FourPlaneLog(rate, p1, p2, p3, p4);
  }

  /**
   * Five packets of the selected track where the third fails to decode: the
   * other four are fed in order and the record holds the estimate made after
   * the last of them.
   */
  lemma {:induction false} TransientErrorScenario(path: string, id: u32, rate: u32, keyOfAudio: seq<PlaneRef> -> i32,
                                                  p1: PlaneRef, p2: PlaneRef, p3: PlaneRef, p4: PlaneRef)
    ensures var events := [Packet(id, F32([p1])), Packet(id, F32([p2])), Packet(id, DecodeError),
                           Packet(id, F32([p3])), Packet(id, F32([p4]))];
      Process(path, Track(id, Some(rate)), events, keyOfAudio) ==
        (Returned(Some(SetKey(NewSongMeta(path), FromKeyT(keyOfAudio([p1, p2, p3, p4]))))),
         [InitAudioData(rate), AddToSamples(p1), KeyOfAudio, AddToSamples(p2), KeyOfAudio,
          AddToSamples(p3), KeyOfAudio, AddToSamples(p4), KeyOfAudio, DestroyAudioData])
  {
    var track := Track(id, Some(rate));
    var a, b := [Packet(id, F32([p1])), Packet(id, F32([p2]))], [Packet(id, F32([p3])), Packet(id, F32([p4]))];
    var e := Packet(id, DecodeError);
    calc {
      Process(path, track, [Packet(id, F32([p1])), Packet(id, F32([p2])), e, Packet(id, F32([p3])), Packet(id, F32([p4]))],
              keyOfAudio);
      { assert [Packet(id, F32([p1])), Packet(id, F32([p2])), e, Packet(id, F32([p3])), Packet(id, F32([p4]))]
            == a + [e] + b; }
      Process(path, track, a + [e] + b, keyOfAudio);
      { SkippedEventChangesNothing(path, track, a, e, b, keyOfAudio); }
      Process(path, track, a + b, keyOfAudio);
      { assert a + b == [Packet(id, F32([p1])), Packet(id, F32([p2])), Packet(id, F32([p3])), Packet(id, F32([p4]))]; }
      Process(path, track, [Packet(id, F32([p1])), Packet(id, F32([p2])), Packet(id, F32([p3])), Packet(id, F32([p4]))],
              keyOfAudio);
    }
    FourPacketSession(path, id, rate, keyOfAudio, p1, p2, p3, p4);
  }
}
