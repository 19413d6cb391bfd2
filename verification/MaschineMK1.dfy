/**
  The tick of the MK1 driver: a round robin over its three steps, and the bounded
  retry of display frames over a USB link whose writes may each succeed or fail.
*/
module MaschineMK1 {
  import opened Colors
  import opened DirtyChunks
  import opened GDisplayMaschineMK1

  const DISPLAYS: nat := 2
  const MAX_SEND_FRAME_RETRIES: nat := 3
  const CHUNK_SIZE: nat := 502
  const LAST_CHUNK_SIZE: nat := 338

  // ------------------------------------------------------------- sending a frame

  /** One write to the display endpoint. */
  datatype Transfer = Transfer(header: seq<bv8>, payload: seq<bv8>)

  /** The bytes of the frame that chunk `k` carries. */
  function Chunk(data: seq<bv8>, k: nat): seq<bv8>
    requires |data| == SIZE && k < CHUNKS
  {
    if k == CHUNKS - 1 then data[CHUNK_SIZE * k..] else data[CHUNK_SIZE * k..CHUNK_SIZE * (k + 1)]
  }

  function ChunkHeader(d: bv8, k: nat): seq<bv8> {
    if k == 0 then [d, 0x01, 0xF7, 0x5C]
    else if k < CHUNKS - 1 then [d + 1, 0x01, 0xF6]
    else [d + 1, 0x01, 0x52]
  }

  /** Every write of a frame, in order: two set-up writes, then the chunks. */
  function FrameWrites(display: nat, data: seq<bv8>): (w: seq<Transfer>)
    requires display < DISPLAYS && |data| == SIZE
    ensures |w| == CHUNKS + 2
  {
    var d := (2 * display) as bv8;
    [Transfer([d, 0x00, 0x03, 0x75, 0x00, 0x3F], []), Transfer([d, 0x00, 0x03, 0x15, 0x00, 0x54], [])]
    + seq(CHUNKS, k requires 0 <= k < CHUNKS => Transfer(ChunkHeader(d, k), Chunk(data, k)))
  }

  /** A frame gets through when all its chunk writes succeed; the set-up writes are not checked. */
  ghost predicate GetsThrough(usb: nat -> bool) {
    forall k :: 2 <= k < CHUNKS + 2 ==> usb(k)
  }

  function Payloads(w: seq<Transfer>): seq<bv8> {
    if w == [] then [] else Payloads(w[..|w| - 1]) + w[|w| - 1].payload
  }

  lemma {:induction false} PayloadsMore(w: seq<Transfer>, t: Transfer)
    ensures Payloads(w + [t]) == Payloads(w) + t.payload
  {
    assert (w + [t])[..|w|] == w;
  }

  lemma {:induction false} PayloadsSoFar(display: nat, data: seq<bv8>, n: nat)
    requires display < DISPLAYS && |data| == SIZE && n <= CHUNKS
    ensures Payloads(FrameWrites(display, data)[..n + 2]) == if n == CHUNKS then data else data[..CHUNK_SIZE * n]
  {
    hide FrameWrites, Payloads;
    var w := FrameWrites(display, data);
    if n == 0 {
      SetUpCarriesNothing(display, data);
    } else {
      var t := Transfer(ChunkHeader((2 * display) as bv8, n - 1), Chunk(data, n - 1));
      PayloadsSoFar(display, data, n - 1);
      NextWrite(display, data, n - 1, w[..n + 1]);
      PayloadsMore(w[..n + 1], t);
    }
  }

  lemma {:induction false} SetUpCarriesNothing(display: nat, data: seq<bv8>)
    requires display < DISPLAYS && |data| == SIZE
    ensures Payloads(FrameWrites(display, data)[..2]) == []
  {
    var w := FrameWrites(display, data)[..2];
    PayloadsMore([w[0]], w[1]);
    PayloadsMore([], w[0]);
    assert w == [w[0]] + [w[1]] && [w[0]] == [] + [w[0]];
  }

  /** The writes of a frame one by one, headers and all. */
  lemma {:induction false} FrameShape(display: nat, data: seq<bv8>, k: nat)
    requires display < DISPLAYS && |data| == SIZE && k < 24
    ensures var d, w := (2 * display) as bv8, FrameWrites(display, data);
      w[k] ==
        if k == 0 then Transfer([d, 0x00, 0x03, 0x75, 0x00, 0x3F], [])
        else if k == 1 then Transfer([d, 0x00, 0x03, 0x15, 0x00, 0x54], [])
        else if k == 2 then Transfer([d, 0x01, 0xF7, 0x5C], data[..502])
        else if k < 23 then Transfer([d + 1, 0x01, 0xF6], data[502 * (k - 2)..502 * (k - 1)])
        else Transfer([d + 1, 0x01, 0x52], data[10542..])
    ensures |data[10542..]| == 338
  {
  }

  /** The chunks of a frame, put end to end, are the buffer of the display. */
  lemma {:induction false} FrameCarriesBuffer(display: nat, data: seq<bv8>)
    requires display < DISPLAYS && |data| == SIZE
    ensures Payloads(FrameWrites(display, data)) == data
  {
    PayloadsSoFar(display, data, CHUNKS);
    assert FrameWrites(display, data)[..CHUNKS + 2] == FrameWrites(display, data);
  }

  // ------------------------------------------------------------ one display's side

  /** How the last dirty period of a display ended: with these writes all made, or with this frame given up. */
  datatype Verdict = NotYet | Shown(writes: seq<Transfer>) | Abandoned(frame: seq<bv8>)

  /** A display, its count of failures in a row, and the history of its frames. */
  datatype Side = Side(screen: Screen, fails: nat, verdict: Verdict, attempts: seq<bool>)

  /** The turn of display `i` in the SendFrame step, given whether its frame would get through. */
  function Turn(i: nat, s: Side, through: bool): Side
    requires i < DISPLAYS && Ok(s.screen)
  {
    if !Dirty(s.screen.flags) then s
    else
      var clean := s.screen.(flags := AllFlags(|s.screen.flags|, false));
      var attempts := s.attempts + [through];
      if through then Side(clean, 0, Shown(FrameWrites(i, s.screen.data)), attempts)
      else if s.fails + 1 >= MAX_SEND_FRAME_RETRIES then Side(clean, 0, Abandoned(s.screen.data), attempts)
      else s.(fails := s.fails + 1, attempts := attempts)
  }

  // ------------------------------------------------------------------- the driver

  datatype TickStep = SendFrame | Read | SendLeds

  datatype Driver = Driver(step: TickStep, sides: seq<Side>)

  /** What happens to a driver: drawing on a display, or a tick with these USB results. */
  datatype Event =
    | Draw(display: nat, x: nat, y: nat, color: Color)
    | FillWhite(display: nat)
    | FillBlack(display: nat)
    | Tick(through0: bool, through1: bool, readOk: bool, ledsOk: bool)

  function NextStep(step: TickStep): TickStep {
    match step
    case SendFrame => Read
    case Read => SendLeds
    case SendLeds => SendFrame
  }

  function AfterTick(d: Driver, through0: bool, through1: bool): Driver
    requires Shaped(d)
  {
    Driver(NextStep(d.step),
           if d.step.SendFrame? then [Turn(0, d.sides[0], through0), Turn(1, d.sides[1], through1)] else d.sides)
  }

  /** What `tick` returns; in the SendFrame step the second display's result hides the first's. */
  function TickResult(d: Driver, through0: bool, through1: bool, readOk: bool, ledsOk: bool): bool
    requires |d.sides| == DISPLAYS
  {
    match d.step
    case SendFrame =>
      if Dirty(d.sides[1].screen.flags) then through1
      else if Dirty(d.sides[0].screen.flags) then through0
      else true
    case Read => readOk
    case SendLeds => ledsOk
  }

  function OnSide(d: Driver, i: nat, screen: Screen): Driver
    requires i < |d.sides|
  {
    d.(sides := d.sides[i := d.sides[i].(screen := screen)])
  }

  ghost predicate Shaped(d: Driver) {
    |d.sides| == DISPLAYS && Ok(d.sides[0].screen) && Ok(d.sides[1].screen)
  }

  function After(d: Driver, e: Event): Driver
    requires Shaped(d)
  {
    match e
    case Draw(i, x, y, c) => if i < DISPLAYS then OnSide(d, i, SetPixel(d.sides[i].screen, x, y, c, true)) else d
    case FillWhite(i) => if i < DISPLAYS then OnSide(d, i, White(d.sides[i].screen)) else d
    case FillBlack(i) => if i < DISPLAYS then OnSide(d, i, Black(d.sides[i].screen)) else d
    case Tick(through0, through1, _, _) => AfterTick(d, through0, through1)
  }

  const FRESH := Side(Screen(Filled(0xff), AllFlags(CHUNKS, true)), 0, NotYet, [])

  const START := Driver(SendFrame, [FRESH, FRESH])

  // -------------------------------------------------------------------- invariant

  /** The last `n` attempts all failed. */
  ghost predicate FailedLast(attempts: seq<bool>, n: nat) {
    n <= |attempts| && forall k :: |attempts| - n <= k < |attempts| ==> !attempts[k]
  }

  /** The buffer went out in full at the last attempt, or was given up after three failures in a row. */
  ghost predicate Settled(i: nat, s: Side)
    requires i < DISPLAYS && Ok(s.screen)
  {
    match s.verdict
    case NotYet => false
    case Shown(writes) => writes == FrameWrites(i, s.screen.data) && s.attempts != [] && s.attempts[|s.attempts| - 1]
    case Abandoned(frame) => frame == s.screen.data && FailedLast(s.attempts, MAX_SEND_FRAME_RETRIES)
  }

  ghost predicate InSync(i: nat, s: Side)
    requires i < DISPLAYS
  {
    && Ok(s.screen)
    && s.fails < MAX_SEND_FRAME_RETRIES && FailedLast(s.attempts, s.fails)
    && (!Dirty(s.screen.flags) ==> Settled(i, s))
  }

  ghost predicate Inv(d: Driver) {
    |d.sides| == DISPLAYS && InSync(0, d.sides[0]) && InSync(1, d.sides[1])
  }

  lemma {:induction false} AllClean(n: nat)
    ensures !Dirty(AllFlags(n, false))
    ensures n > 0 ==> Dirty(AllFlags(n, true))
  {
    if n > 0 {
      assert AllFlags(n, true)[0];
    }
  }

  lemma {:induction false} TurnKeeps(i: nat, s: Side, through: bool)
    requires i < DISPLAYS && InSync(i, s)
    ensures InSync(i, Turn(i, s, through))
  {
    hide FrameWrites;
    AllClean(CHUNKS);
  }

  lemma {:induction false} StaysDirty(s: Screen, x: nat, y: nat, c: Color)
    requires Ok(s) && Dirty(s.flags)
    ensures Dirty(SetPixel(s, x, y, c, true).flags)
  {
    hide PutAt, LevelOver, Raw, Get, Shade;
    var k :| 0 <= k < CHUNKS && s.flags[k];
    OnlyMarks(s.flags, y, HEIGHT, k);
    assert SetPixel(s, x, y, c, true).flags[k];
  }

  lemma {:induction false} DrawKeeps(i: nat, s: Side, x: nat, y: nat, c: Color)
    requires i < DISPLAYS && InSync(i, s)
    ensures InSync(i, s.(screen := SetPixel(s.screen, x, y, c, true)))
  {
    hide SetPixel, FrameWrites;
    var after := SetPixel(s.screen, x, y, c, true);
    if Dirty(s.screen.flags) {
      StaysDirty(s.screen, x, y, c);
    } else if after.data != s.screen.data {
      ChangesAreMarked(s.screen, x, y, c);
    }
  }

  lemma {:induction false} FillKeeps(i: nat, s: Side)
    requires i < DISPLAYS && InSync(i, s)
    ensures InSync(i, s.(screen := White(s.screen))) && InSync(i, s.(screen := Black(s.screen)))
  {
    AllClean(CHUNKS);
  }

  lemma {:induction false} EventKeeps(d: Driver, e: Event)
    requires Inv(d)
    ensures Shaped(d) && Inv(After(d, e))
  {
    hide SetPixel, White, Black, Turn, InSync;
    SyncOk(0, d.sides[0]);
    SyncOk(1, d.sides[1]);
    match e
    case Draw(i, x, y, c) =>
      if i < DISPLAYS { DrawKeeps(i, d.sides[i], x, y, c); }
    case FillWhite(i) =>
      if i < DISPLAYS { FillKeeps(i, d.sides[i]); }
    case FillBlack(i) =>
      if i < DISPLAYS { FillKeeps(i, d.sides[i]); }
    case Tick(through0, through1, _, _) =>
      TurnKeeps(0, d.sides[0], through0);
      TurnKeeps(1, d.sides[1], through1);
  }

  lemma {:induction false} SyncOk(i: nat, s: Side)
    requires i < DISPLAYS && InSync(i, s)
    ensures Ok(s.screen)
  {
  }

  // ----------------------------------------------------------------- main theorems

  /** The driver after a run of events from the start. */
  function Run(events: seq<Event>): (d: Driver)
    ensures Inv(d)
  {
    if events == [] then StartInSync(); START
    else
      var before := Run(events[..|events| - 1]);
      EventKeeps(before, events[|events| - 1]);
      After(before, events[|events| - 1])
  }

  lemma {:induction false} StartInSync()
    ensures Inv(START)
  {
    AllClean(CHUNKS);
  }

  /**
    In every run of drawing and ticking, whatever the USB results: a display that
    is not dirty holds the bytes of the last frame whose writes were all made, at
    the last attempt, or a frame whose last three attempts all failed; and the
    count of failures stays below three.
  */
  lemma {:induction false} CleanMeansSentOrAbandoned(events: seq<Event>, i: nat)
    requires i < DISPLAYS
    ensures var s := Run(events).sides[i];
      && s.fails < 3 && FailedLast(s.attempts, s.fails)
      && (!Dirty(s.screen.flags) ==>
            || (s.verdict.Shown? && Payloads(s.verdict.writes) == s.screen.data
                && s.attempts != [] && s.attempts[|s.attempts| - 1])
            || (s.verdict == Abandoned(s.screen.data) && FailedLast(s.attempts, 3)))
  {
    hide Run, FrameWrites, Payloads;
    var s := Run(events).sides[i];
    assert InSync(i, s);
    FrameCarriesBuffer(i, s.screen.data);
  }

  /** Whether display `i` would get a frame through in this event. */
  predicate Through(e: Event, i: nat) {
    e.Tick? && if i == 0 then e.through0 else e.through1
  }

  /**
    In any run a dirty display goes clean just when a tick gives it its turn and
    the frame gets through or has already failed twice; it is given up in the
    second case only, the same frame again or not.
  */
  lemma {:induction false} AbandonedAfterThree(events: seq<Event>, e: Event, i: nat)
    requires i < DISPLAYS && Dirty(Run(events).sides[i].screen.flags)
    ensures var d := Run(events);
      var was, now := d.sides[i], After(d, e).sides[i];
      && (!Dirty(now.screen.flags) <==>
            e.Tick? && d.step.SendFrame? && (Through(e, i) || was.fails == 2))
      && (!Dirty(now.screen.flags) ==>
            if Through(e, i) then now.verdict.Shown?
            else now.verdict == Abandoned(was.screen.data) && FailedLast(now.attempts, 3))
  {
    hide Run, SetPixel, FrameWrites;
    var d := Run(events);
    assert InSync(i, d.sides[i]);
    AllClean(CHUNKS);
    if e.Draw? && e.display == i {
      StaysDirty(d.sides[i].screen, e.x, e.y, e.color);
    }
  }

  function Turns(i: nat, s: Side, through: seq<bool>): (t: Side)
    requires i < DISPLAYS && Ok(s.screen)
    ensures Ok(t.screen)
  {
    if through == [] then s else Turn(i, Turns(i, s, through[..|through| - 1]), through[|through| - 1])
  }

  /** Left alone, a dirty display is clean after at most three of its turns, fewer the more it has failed. */
  lemma {:induction false} CleanWithinThreeTurns(i: nat, s: Side, through: seq<bool>)
    requires i < DISPLAYS && InSync(i, s) && |through| + s.fails >= 3
    ensures !Dirty(Turns(i, s, through).screen.flags)
  {
    TurnsProgress(i, s, through);
  }

  lemma {:induction false} TurnsProgress(i: nat, s: Side, through: seq<bool>)
    requires i < DISPLAYS && InSync(i, s)
    ensures InSync(i, Turns(i, s, through))
    ensures var t := Turns(i, s, through);
      Dirty(t.screen.flags) ==> t.fails >= s.fails + |through|
  {
    hide FrameWrites;
    if through != [] {
      var n := |through| - 1;
      TurnsProgress(i, s, through[..n]);
      TurnKeeps(i, Turns(i, s, through[..n]), through[n]);
      AllClean(CHUNKS);
    }
  }

  /** The round robin gives each display a turn exactly every third tick, whatever a tick returned. */
  lemma {:induction false} EveryThirdTick(d: Driver, ticks: seq<(bool, bool)>)
    requires Shaped(d) && |ticks| == 3
    ensures var a := AfterTick(d, ticks[0].0, ticks[0].1);
      var b := AfterTick(a, ticks[1].0, ticks[1].1);
      var c := AfterTick(b, ticks[2].0, ticks[2].1);
      && c.step == d.step
      && exists k {:trigger ticks[k]} :: 0 <= k < 3 &&
           c.sides == [Turn(0, d.sides[0], ticks[k].0), Turn(1, d.sides[1], ticks[k].1)]
  {
    var k := if d.step.SendFrame? then 0 else if d.step.Read? then 2 else 1;
    assert 0 <= k < 3 && ticks[k] == ticks[k];
  }

  /**
    The result of a SendFrame tick tells whether every dirty display got its frame
    through if and only if the two are not both dirty: with both dirty, the second
    display's result hides the first's.
  */
  lemma {:induction false} FailureHidden(d: Driver, readOk: bool, ledsOk: bool)
    requires Shaped(d) && d.step.SendFrame?
    ensures var dirty0, dirty1 := Dirty(d.sides[0].screen.flags), Dirty(d.sides[1].screen.flags);
      (forall t0, t1 :: TickResult(d, t0, t1, readOk, ledsOk) == ((dirty0 ==> t0) && (dirty1 ==> t1)))
      <==> !(dirty0 && dirty1)
  {
    if Dirty(d.sides[0].screen.flags) && Dirty(d.sides[1].screen.flags) {
      assert TickResult(d, false, true, readOk, ledsOk);
    }
  }

  /** So the very first tick can fail to send display 0 and report success. */
  lemma {:induction false} FailureHiddenAtStart()
    ensures Shaped(START) && Dirty(START.sides[0].screen.flags)
    ensures TickResult(START, false, true, true, true)
    ensures AfterTick(START, false, true).sides[0].fails == 1
  {
    AllClean(CHUNKS);
  }

  // --------------------------------------------------------------------- the class

  class Controller {
    const display0: Display
    const display1: Display
    var fails0: nat
    var fails1: nat
    var tickStep: TickStep
    // history of each display's frames
    var verdict0: Verdict
    var verdict1: Verdict
    var attempts0: seq<bool>
    var attempts1: seq<bool>

    ghost const Repr: set<object>

    ghost predicate Valid()
      reads this, Repr
    {
      && Repr == {this, display0, display0.data, display1, display1.data}
      && display0 != display1 && display0.data != display1.data
      && display0.Valid() && display1.Valid()
    }

    ghost function State(): Driver
      requires Valid()
      reads this, Repr
    {
      Driver(tickStep, [Side(display0.State(), fails0, verdict0, attempts0),
                        Side(display1.State(), fails1, verdict1, attempts1)])
    }

    constructor ()
      ensures Valid() && fresh(Repr) && State() == START
    {
      var a := new Display();
      var b := new Display();
      display0, display1 := a, b;
      fails0, fails1 := 0, 0;
      verdict0, verdict1 := NotYet, NotYet;
      attempts0, attempts1 := [], [];
      tickStep := SendFrame;
      Repr := {this, a, a.data, b, b.data};
    }

    method Tick(usb0: nat -> bool, usb1: nat -> bool, readOk: bool, ledsOk: bool)
      returns (success: bool, ghost through0: bool, ghost through1: bool, wrote0: seq<Transfer>, wrote1: seq<Transfer>)
      requires Valid()
      modifies Repr
      ensures Valid() && through0 == GetsThrough(usb0) && through1 == GetsThrough(usb1)
      ensures State() == AfterTick(old(State()), through0, through1)
      ensures success == TickResult(old(State()), through0, through1, readOk, ledsOk)
      ensures TickWrites(old(State()), 0, usb0, wrote0) && TickWrites(old(State()), 1, usb1, wrote1)
      ensures old(tickStep).SendFrame? ==> tickStep == Read
      ensures old(tickStep).Read? ==> tickStep == SendLeds && success == readOk
      ensures old(tickStep).SendLeds? ==> tickStep == SendFrame && success == ledsOk
    {
      hide GetsThrough, Attempt, FrameWrites;
      wrote0, wrote1 := [], [];
      through0, through1 := GetsThrough(usb0), GetsThrough(usb1);
      success := true;
      match tickStep {
        case SendFrame =>
          if Dirty(display0.flags) {
            success, fails0, verdict0, attempts0, wrote0 := Serve(0, display0, usb0, fails0, verdict0, attempts0);
          }
          if Dirty(display1.flags) {
            success, fails1, verdict1, attempts1, wrote1 := Serve(1, display1, usb1, fails1, verdict1, attempts1);
          }
        case Read =>
          success := readOk;
        case SendLeds =>
          success := ledsOk;
      }
      tickStep := NextStep(tickStep);
    }
  }

  /** The writes of one attempt: the frame in order, all of it or up to the first chunk that fails. */
  ghost predicate Attempt(i: nat, data: seq<bv8>, usb: nat -> bool, wrote: seq<Transfer>)
    requires i < DISPLAYS && |data| == SIZE
  {
    && 3 <= |wrote| <= CHUNKS + 2 && wrote == FrameWrites(i, data)[..|wrote|]
    && (GetsThrough(usb) ==> wrote == FrameWrites(i, data))
    && (!GetsThrough(usb) ==> !usb(|wrote| - 1) && forall k :: 2 <= k < |wrote| - 1 ==> usb(k))
  }

  /** What a tick writes to display `i`: one attempt at its frame if that is due, else nothing. */
  ghost predicate TickWrites(d: Driver, i: nat, usb: nat -> bool, wrote: seq<Transfer>)
    requires i < DISPLAYS && Shaped(d)
  {
    if d.step.SendFrame? && Dirty(d.sides[i].screen.flags) then Attempt(i, d.sides[i].screen.data, usb, wrote)
    else wrote == []
  }

  /** What a SendFrame step does for one dirty display. */
  method Serve(i: nat, display: Display, usb: nat -> bool, fails: nat, verdict: Verdict, attempts: seq<bool>)
    returns (success: bool, fails': nat, verdict': Verdict, attempts': seq<bool>, wrote: seq<Transfer>)
    requires i < DISPLAYS && display.Valid() && Dirty(display.flags)
    modifies display`flags
    ensures display.Valid() && success == GetsThrough(usb) && Attempt(i, display.data[..], usb, wrote)
    ensures success ==> Payloads(wrote) == display.data[..]
    ensures Side(display.State(), fails', verdict', attempts')
      == Turn(i, Side(old(display.State()), fails, verdict, attempts), success)
  {
    hide FrameWrites, Payloads, GetsThrough;
    success, wrote := WriteFrame(i, display.data[..], usb);
    attempts' := attempts + [success];
    fails', verdict' := fails, verdict;
    FrameCarriesBuffer(i, display.data[..]);
    if success {
      display.ResetDirtyFlags();
      fails' := 0;
      verdict' := Shown(wrote);
    } else {
      fails' := fails' + 1;
      if fails' >= MAX_SEND_FRAME_RETRIES {
        display.ResetDirtyFlags();
        fails' := 0;
        verdict' := Abandoned(display.data[..]);
      }
    }
  }

  /** `sendFrame`: stops at the first chunk whose write fails. */
  method WriteFrame(i: nat, data: seq<bv8>, usb: nat -> bool) returns (ok: bool, wrote: seq<Transfer>)
    requires i < DISPLAYS && |data| == SIZE
    ensures ok == GetsThrough(usb)
    ensures Attempt(i, data, usb, wrote)
    ensures ok ==> Payloads(wrote) == data
  {
    hide FrameWrites, Payloads;
    ghost var all := FrameWrites(i, data);
    var d := (2 * i) as bv8;
    wrote := [Transfer([d, 0x00, 0x03, 0x75, 0x00, 0x3F], []), Transfer([d, 0x00, 0x03, 0x15, 0x00, 0x54], [])];
    FirstWrites(i, data);
    var offset := 0;
    NextWrite(i, data, 0, wrote);
    wrote := wrote + [Transfer([d, 0x01, 0xF7, 0x5C], data[offset..offset + CHUNK_SIZE])];
    if !usb(2) {
      return false, wrote;
    }
    d := d + 1;
    var chunk := 1;
    while chunk < CHUNKS - 1
      invariant 1 <= chunk <= CHUNKS - 1 && offset == CHUNK_SIZE * (chunk - 1)
      invariant |wrote| == chunk + 2 && wrote == all[..chunk + 2]
      invariant forall k :: 2 <= k < chunk + 2 ==> usb(k)
    {
      offset := offset + CHUNK_SIZE;
      NextWrite(i, data, chunk, wrote);
      wrote := wrote + [Transfer([d, 0x01, 0xF6], data[offset..offset + CHUNK_SIZE])];
      if !usb(chunk + 2) {
        return false, wrote;
      }
      chunk := chunk + 1;
    }
    offset := offset + CHUNK_SIZE;
    NextWrite(i, data, CHUNKS - 1, wrote);
    assert data[offset..offset + LAST_CHUNK_SIZE] == data[offset..];
    wrote := wrote + [Transfer([d, 0x01, 0x52], data[offset..offset + LAST_CHUNK_SIZE])];
    FrameCarriesBuffer(i, data);
    assert wrote == all;
    ok := usb(CHUNKS + 1);
  }

  lemma {:induction false} FirstWrites(i: nat, data: seq<bv8>)
    requires i < DISPLAYS && |data| == SIZE
    ensures var d := (2 * i) as bv8;
      FrameWrites(i, data)[..2]
      == [Transfer([d, 0x00, 0x03, 0x75, 0x00, 0x3F], []), Transfer([d, 0x00, 0x03, 0x15, 0x00, 0x54], [])]
  {
  }

  lemma {:induction false} NextWrite(i: nat, data: seq<bv8>, k: nat, wrote: seq<Transfer>)
    requires i < DISPLAYS && |data| == SIZE && k < CHUNKS && wrote == FrameWrites(i, data)[..k + 2]
    ensures wrote + [Transfer(ChunkHeader((2 * i) as bv8, k), Chunk(data, k))] == FrameWrites(i, data)[..k + 3]
  {
  }
}
