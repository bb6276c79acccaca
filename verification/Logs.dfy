/** The two readers of Docker's multiplexed streams: LogDecoder, which is fed
  * chunks, and Demux, which pulls from a reader. */
module Logs {

  import opened Octets

  const HEADER: nat := 8
  const MAX_LOG_FRAME: nat := 16 * 1024 * 1024
  const MAX_FRAME: nat := 64 * 1024 * 1024

  function Big32(b: Bytes): nat
    requires |b| == 4
  {
    b[0] as int * 0x100_0000 + b[1] as int * 0x1_0000 + b[2] as int * 0x100 + b[3]
  }

  predicate Plain(h: Bytes)
    requires |h| >= 4
  {
    h[1] == 0 && h[2] == 0 && h[3] == 0
  }

  function Size(h: Bytes): nat
    requires |h| >= HEADER
  {
    Big32(h[4..8])
  }

  /** What a stream delivers on each channel, and whether it ended well. */
  datatype Delivery = Delivery(stdout: Bytes, stderr: Bytes, clean: bool)

  function Join(stdout: Bytes, stderr: Bytes, d: Delivery): Delivery {
    Delivery(stdout + d.stdout, stderr + d.stderr, d.clean)
  }

  datatype Mode = Unknown | Raw | Multiplexed

  datatype Channel = Stdout | Stderr

  function Send(channel: Channel, data: Bytes, d: Delivery): Delivery {
    if channel.Stdout? then Join(data, [], d) else Join([], data, d)
  }

  predicate LogHeader(h: Bytes)
    requires |h| >= HEADER
  {
    (h[0] == 1 || h[0] == 2) && Plain(h) && Size(h) <= MAX_LOG_FRAME
  }

  // The first frame decides: its first byte, then its next three.
  predicate LooksRaw(h: Bytes)
    requires h != []
  {
    (h[0] != 1 && h[0] != 2) || (|h| >= 4 && !Plain(h))
  }

  /** What LogDecoder makes of a whole stream, from a frame boundary on; first
    * says that no header was accepted yet. */
  function Frames(first: bool, s: Bytes): Delivery
    decreases |s|, 0
  {
    if s == [] then Delivery([], [], true)
    else if first && (LooksRaw(s) || |s| < 4) then Delivery(s, [], true)
    else if |s| < HEADER then Delivery([], [], false)
    else if !LogHeader(s) then Delivery(s, [], true)
    else Body(if s[0] == 2 then Stderr else Stdout, Size(s), s[HEADER..])
  }

  // The rest of a frame, and the frames after it.
  function Body(channel: Channel, remaining: nat, s: Bytes): Delivery
    decreases |s|, 1
  {
    if |s| < remaining then Send(channel, s, Delivery([], [], false))
    else Send(channel, s[..remaining], Frames(false, s[remaining..]))
  }

  /** What a decoder in this state makes of what is still to come. */
  datatype State = State(mode: Mode, held: Bytes, remaining: nat, channel: Channel)

  function Onward(st: State, s: Bytes): Delivery {
    if st.mode.Raw? then Delivery(s, [], true)
    else if st.remaining > 0 then Body(st.channel, st.remaining, s)
    else Frames(st.mode.Unknown?, st.held + s)
  }

  predicate Possible(st: State) {
    && |st.held| < HEADER
    && (st.mode.Raw? ==> st.held == [] && st.remaining == 0)
    && (st.remaining > 0 ==> st.held == [] && st.mode.Multiplexed?)
    && (st.mode.Unknown? ==> |st.held| < 4 && (st.held != [] ==> !LooksRaw(st.held)))
  }

  // One step of Push: it sends, and goes on with the next state.
  ghost predicate Follows(st: State, s: Bytes, stdout: Bytes, stderr: Bytes, next: State, rest: Bytes) {
    forall more: Bytes {:trigger Onward(st, s + more)} ::
      Onward(st, s + more) == Join(stdout, stderr, Onward(next, rest + more))
  }

  lemma FollowsStep(start: State, s: Bytes, stdout: Bytes, stderr: Bytes, st: State, rest: Bytes,
                    moreOut: Bytes, moreErr: Bytes, next: State, after: Bytes)
    requires Follows(start, s, stdout, stderr, st, rest) && Follows(st, rest, moreOut, moreErr, next, after)
    ensures Follows(start, s, stdout + moreOut, stderr + moreErr, next, after)
  {
  }

  lemma JoinNothing(d: Delivery)
    ensures Join([], [], d) == d
  {
  }

  lemma FollowsRaw(st: State, s: Bytes)
    requires st.mode.Raw?
    ensures Follows(st, s, s, [], st, [])
  {
  }

  lemma FollowsBody(st: State, s: Bytes, count: nat)
    requires st.mode.Multiplexed? && st.held == [] && st.remaining > 0 && count == Min(st.remaining, |s|)
    ensures var next := st.(remaining := st.remaining - count);
            Follows(st, s, if st.channel.Stdout? then s[..count] else [],
                    if st.channel.Stdout? then [] else s[..count], next, s[count..])
  {
    var next := st.(remaining := st.remaining - count);
    forall more: Bytes
      ensures Onward(st, s + more) == Send(st.channel, s[..count], Onward(next, s[count..] + more))
    {
      assert s + more == s[..count] + (s[count..] + more);
      BodySplit(st.channel, st.remaining, s[..count], s[count..] + more);
      assert next.held + (s[count..] + more) == s[count..] + more;
    }
  }

  // A body may be sent in two parts.
  lemma BodySplit(channel: Channel, remaining: nat, part: Bytes, rest: Bytes)
    requires 0 < remaining && |part| <= remaining
    ensures Body(channel, remaining, part + rest)
         == Send(channel, part,
                 if |part| == remaining then Frames(false, rest) else Body(channel, remaining - |part|, rest))
  {
    hide Frames;
    var all := part + rest;
    if |part| == remaining {
      assert all[..remaining] == part && all[remaining..] == rest;
    } else if |all| >= remaining {
      var more := rest[..remaining - |part|];
      assert all[..remaining] == part + more && all[remaining..] == rest[remaining - |part|..];
    }
  }

  // Header bytes that decide nothing yet are only held.
  lemma FollowsHeld(st: State, s: Bytes, count: nat)
    requires !st.mode.Raw? && st.remaining == 0 && count <= |s|
    requires var held := st.held + s[..count];
             st.mode.Multiplexed? || (held != [] && !LooksRaw(held))
    ensures var held := st.held + s[..count];
            var mode := if |held| >= 4 then Multiplexed else st.mode;
            Follows(st, s, [], [], st.(mode := mode, held := held), s[count..])
  {
    hide Frames, LooksRaw;
    var held := st.held + s[..count];
    var next := st.(mode := if |held| >= 4 then Multiplexed else st.mode, held := held);
    forall more: Bytes
      ensures Onward(st, s + more) == Join([], [], Onward(next, s[count..] + more))
    {
      assert st.held + (s + more) == held + (s[count..] + more);
      if st.mode.Unknown? && |held| >= 4 {
        FirstDecided(held, s[count..] + more);
      }
    }
  }

  lemma FirstDecided(held: Bytes, more: Bytes)
    requires |held| >= 4 && !LooksRaw(held)
    ensures Frames(true, held + more) == Frames(false, held + more)
  {
  }

  // Held bytes that are no header turn the stream raw.
  lemma FollowsRefused(st: State, s: Bytes)
    requires !st.mode.Raw? && st.remaining == 0 && st.held != []
    requires (st.mode.Unknown? && LooksRaw(st.held)) ||
             (st.mode.Multiplexed? && |st.held| == HEADER && !LogHeader(st.held))
    ensures Follows(st, s, st.held + s, [], State(Raw, [], 0, st.channel), [])
  {
  }

  lemma HeaderIs(held: Bytes, more: Bytes)
    requires held != []
    ensures LooksRaw(held) ==> LooksRaw(held + more)
    ensures |held| == HEADER ==> Size(held + more) == Size(held) && (LogHeader(held + more) <==> LogHeader(held))
  {
  }

  lemma FollowsText(st: State, s: Bytes, count: nat)
    requires st.mode.Unknown? && st.remaining == 0 && count <= |s| && st.held + s[..count] != []
    requires LooksRaw(st.held + s[..count])
    ensures Follows(st, s, st.held + s[..count] + s[count..], [], State(Raw, [], 0, st.channel), [])
  {
    var held := st.held + s[..count];
    forall more: Bytes
      ensures Onward(st, s + more) == Join(held + s[count..], [], Onward(State(Raw, [], 0, st.channel), [] + more))
    {
      assert [] + more == more && st.held + (s + more) == held + s[count..] + more;
      assert held + s[count..] + more == held + (s[count..] + more);
      HeaderIs(held, s[count..] + more);
    }
  }

  // A full header starts its frame.
  lemma FollowsHeader(st: State, s: Bytes)
    requires st.mode.Multiplexed? && st.remaining == 0 && |st.held| == HEADER && LogHeader(st.held)
    ensures var next := State(Multiplexed, [], Size(st.held), if st.held[0] == 2 then Stderr else Stdout);
            Follows(st, s, [], [], next, s)
  {
    var next := State(Multiplexed, [], Size(st.held), if st.held[0] == 2 then Stderr else Stdout);
    forall more: Bytes
      ensures Onward(st, s + more) == Join([], [], Onward(next, s + more))
    {
      HeaderIs(st.held, s + more);
      var x := s + more;
      var all := st.held + x;
      assert all[HEADER..] == x && all[0] == st.held[0];
      assert Onward(st, x) == Body(next.channel, next.remaining, x);
      JoinNothing(Onward(next, x));
      if next.remaining == 0 {
        assert x[..0] == [] && x[0..] == x && [] + x == x;
      }
    }
  }

  /** One turn of Push's loop on s: what it sends, the state after it and the
    * bytes it leaves. */
  datatype Step = Step(stdout: Bytes, stderr: Bytes, next: State, rest: Bytes)

  function Text(held: Bytes, rest: Bytes, channel: Channel): Step {
    Step(held + rest, [], State(Raw, [], 0, channel), [])
  }

  function TakeStep(st: State, s: Bytes): (step: Step)
    requires Possible(st) && !st.mode.Raw? && s != []
    ensures Possible(step.next)
  {
    if st.remaining > 0 then
      var count := Min(st.remaining, |s|);
      var next := st.(remaining := st.remaining - count);
      if st.channel.Stdout? then Step(s[..count], [], next, s[count..]) else Step([], s[..count], next, s[count..])
    else
      var count := Min(HEADER - |st.held|, |s|);
      var held := st.held + s[..count];
      if st.mode.Unknown? && LooksRaw(held) then Text(held, s[count..], st.channel)
      else if |held| < HEADER then
        Step([], [], st.(mode := if |held| >= 4 then Multiplexed else st.mode, held := held), s[count..])
      else if !LogHeader(held) then Text(held, s[count..], st.channel)
      else Step([], [], State(Multiplexed, [], Size(held), if held[0] == 2 then Stderr else Stdout), s[count..])
  }

  lemma StepFollows(st: State, s: Bytes)
    requires Possible(st) && !st.mode.Raw? && s != []
    ensures var step := TakeStep(st, s);
            Follows(st, s, step.stdout, step.stderr, step.next, step.rest)
  {
    hide Onward, Frames, Follows, LooksRaw, LogHeader;
    if st.remaining > 0 {
      FollowsBody(st, s, Min(st.remaining, |s|));
    } else {
      var count := Min(HEADER - |st.held|, |s|);
      var held := st.held + s[..count];
      if st.mode.Unknown? && LooksRaw(held) {
        FollowsText(st, s, count);
      } else {
        FollowsHeld(st, s, count);
        if |held| == HEADER {
          var full := st.(mode := Multiplexed, held := held);
          if LogHeader(held) {
            FollowsHeader(full, s[count..]);
          } else {
            FollowsRefused(full, s[count..]);
          }
          var step := TakeStep(st, s);
          FollowsStep(st, s, [], [], full, s[count..], step.stdout, step.stderr, step.next, step.rest);
          assert [] + step.stdout == step.stdout && [] + step.stderr == step.stderr;
        }
      }
    }
  }

  const START := State(Unknown, [], 0, Stdout)

  // What was pushed says what was sent and what the state still holds.
  ghost predicate Explains(input: Bytes, stdout: Bytes, stderr: Bytes, st: State, rest: Bytes) {
    Follows(START, input, stdout, stderr, st, rest)
  }

  lemma ExplainsMore(input: Bytes, stdout: Bytes, stderr: Bytes, st: State, chunk: Bytes)
    requires Explains(input, stdout, stderr, st, [])
    ensures Explains(input + chunk, stdout, stderr, st, chunk)
  {
    hide Onward;
    forall more: Bytes
      ensures Onward(START, input + chunk + more) == Join(stdout, stderr, Onward(st, chunk + more))
    {
      assert input + chunk + more == input + (chunk + more) && [] + (chunk + more) == chunk + more;
      assert Onward(START, input + (chunk + more)) == Join(stdout, stderr, Onward(st, [] + (chunk + more)));
    }
  }

  lemma ExplainsStep(input: Bytes, stdout: Bytes, stderr: Bytes, st: State, s: Bytes)
    requires Possible(st) && s != [] && Explains(input, stdout, stderr, st, s)
    ensures if st.mode.Raw? then Explains(input, stdout + s, stderr + [], st, [])
            else
              var step := TakeStep(st, s);
              Explains(input, stdout + step.stdout, stderr + step.stderr, step.next, step.rest)
  {
    hide Follows, TakeStep;
    if st.mode.Raw? {
      FollowsRaw(st, s);
      FollowsStep(START, input, stdout, stderr, st, s, s, [], st, []);
    } else {
      StepFollows(st, s);
      var step := TakeStep(st, s);
      FollowsStep(START, input, stdout, stderr, st, s, step.stdout, step.stderr, step.next, step.rest);
    }
  }

  lemma ExplainsPrefix(s: Bytes, stdout: Bytes, stderr: Bytes, st: State)
    requires Explains(s, stdout, stderr, st, [])
    ensures Frames(true, s) == Join(stdout, stderr, Onward(st, []))
    ensures forall more: Bytes :: stdout <= Frames(true, s + more).stdout && stderr <= Frames(true, s + more).stderr
  {
    hide Frames;
    ghost var nothing: Bytes := [];
    assert s + nothing == s && nothing + s == s && nothing + nothing == nothing;
    assert Onward(START, s + nothing) == Join(stdout, stderr, Onward(st, nothing + nothing));
    forall more: Bytes
      ensures stdout <= Frames(true, s + more).stdout && stderr <= Frames(true, s + more).stderr
    {
      assert [] + (s + more) == s + more;
      assert Onward(START, s + more) == Join(stdout, stderr, Onward(st, [] + more));
    }
  }

  lemma ExplainsNothing()
    ensures Explains([], [], [], START, [])
  {
  }

  // End: a first frame too short to decide is raw text.
  lemma AtEnd(st: State)
    requires Possible(st)
    ensures Onward(st, []) == if st.mode.Unknown? then Delivery(st.held, [], true)
                              else Delivery([], [], st.held == [] && st.remaining == 0)
  {
  }

  class LogDecoder {
    var mode: Mode
    const header: array<Byte>
    var headerLen: nat
    var remaining: nat
    var channel: Channel
    // What was delivered on each channel, and everything pushed so far.
    var stdout: Bytes
    var stderr: Bytes
    ghost var input: Bytes

    constructor ()
      ensures Valid() && input == [] && fresh(header)
    {
      mode, headerLen, remaining, channel := Unknown, 0, 0, Stdout;
      stdout, stderr, input := [], [], [];
      header := new Byte[HEADER];
      new;
      hide Explains;
      ExplainsNothing();
    }

    ghost function View(): State
      requires headerLen <= header.Length
      reads this, header
    {
      State(mode, header[..headerLen], remaining, channel)
    }

    predicate Ready()
      reads this
    {
      headerLen < header.Length == HEADER
    }

    /** Only a partial header is held, and what was delivered, with what this
      * state makes of any further bytes, is what the whole stream means. */
    ghost predicate Valid()
      reads this, header
    {
      Ready() && Possible(View()) && Explains(input, stdout, stderr, View(), [])
    }

    method Write(kind: Channel, data: Bytes)
      modifies this`stdout, this`stderr
      ensures stdout == old(stdout) + (if kind.Stdout? then data else [])
      ensures stderr == old(stderr) + (if kind.Stdout? then [] else data)
    {
      if kind.Stdout? {
        stdout := stdout + data;
      } else {
        stderr := stderr + data;
      }
    }

    /** raw: the held header bytes were text. */
    method TurnRaw()
      requires headerLen <= header.Length
      modifies this`mode, this`headerLen, this`stdout, this`stderr
      ensures mode == Raw && headerLen == 0
      ensures stdout == old(stdout) + old(header[..headerLen]) && stderr == old(stderr)
    {
      mode := Raw;
      if headerLen > 0 {
        Write(Stdout, header[..headerLen]);
        headerLen := 0;
      }
    }

    // The held bytes and the rest of the chunk are text.
    method SendText(rest: Bytes)
      requires headerLen <= header.Length && remaining == 0
      modifies this`mode, this`headerLen, this`stdout, this`stderr
      ensures headerLen == 0 && stderr == old(stderr) + [] && View() == State(Raw, [], 0, channel)
      ensures stdout == old(stdout) + (old(header[..headerLen]) + rest)
    {
      TurnRaw();
      Write(Stdout, rest);
    }

    // Copy as much of the header as the chunk has.
    method Fill(chunk: Bytes, start: nat) returns (offset: nat)
      requires Ready() && start < |chunk|
      modifies this`headerLen, header
      ensures start < offset == start + Min(HEADER - old(headerLen), |chunk| - start) <= |chunk|
      ensures headerLen <= HEADER && header[..headerLen] == old(header[..headerLen]) + chunk[start..][..offset - start]
      ensures chunk[offset..] == chunk[start..][offset - start..]
    {
      var count := Min(HEADER - headerLen, |chunk| - start);
      forall k | 0 <= k < count {
        header[headerLen + k] := chunk[start + k];
      }
      headerLen := headerLen + count;
      offset := start + count;
    }

    // The body branch of a turn.
    method TakeBody(chunk: Bytes, start: nat) returns (offset: nat)
      requires start < |chunk| && Ready() && Possible(View()) && remaining > 0
      modifies this`stdout, this`stderr, this`remaining
      ensures start < offset <= |chunk|
      ensures var step := TakeStep(old(View()), chunk[start..]);
              && stdout == old(stdout) + step.stdout && stderr == old(stderr) + step.stderr
              && View() == step.next && step.rest == chunk[offset..]
    {
      var count := Min(remaining, |chunk| - start);
      offset := start + count;
      assert chunk[start..offset] == chunk[start..][..count] && chunk[offset..] == chunk[start..][count..];
      Write(channel, chunk[start..offset]);
      remaining := remaining - count;
    }

    /** The header branch of a turn. */
    method TakeHeader(chunk: Bytes, start: nat) returns (offset: nat, stop: bool)
      requires start < |chunk| && Ready() && Possible(View()) && !mode.Raw? && remaining == 0
      modifies this, header
      ensures Ready() && input == old(input) && start < offset <= |chunk|
      ensures var step := TakeStep(old(View()), chunk[start..]);
              && stdout == old(stdout) + step.stdout && stderr == old(stderr) + step.stderr
              && View() == step.next && step.rest == (if stop then [] else chunk[offset..])
      ensures stop || !mode.Raw?
    {
      hide LooksRaw, LogHeader, Size;
      offset := Fill(chunk, start);
      stop := true;
      if mode.Unknown? {
        if LooksRaw(header[..headerLen]) {
          SendText(chunk[offset..]);
          return;
        }
        if headerLen >= 4 {
          mode := Multiplexed;
        }
      }
      if headerLen < HEADER {
        return;
      }
      if !LogHeader(header[..headerLen]) {
        SendText(chunk[offset..]);
        return;
      }
      channel := if header[0] == 2 then Stderr else Stdout;
      remaining := Size(header[..headerLen]);
      headerLen, stop := 0, false;
    }

    /** Push: what is delivered so far is a prefix of what any longer stream
      * delivers. */
    method Push(chunk: Bytes)
      requires Valid()
      modifies this, header
      ensures Valid() && input == old(input) + chunk
      ensures forall more: Bytes :: stdout <= Frames(true, input + more).stdout
      ensures forall more: Bytes :: stderr <= Frames(true, input + more).stderr
    {
      hide Frames, Explains, TakeStep;
      ExplainsMore(input, stdout, stderr, View(), chunk);
      input := input + chunk;
      if chunk != [] && mode.Raw? {
        ExplainsStep(input, stdout, stderr, View(), chunk);
        Write(Stdout, chunk);
      } else {
        var offset, stop := 0, false;
        while offset < |chunk| && !stop
          invariant offset <= |chunk| && input == old(input) + chunk
          invariant Ready() && Possible(View()) && (stop || chunk == [] || !mode.Raw?)
          invariant Explains(input, stdout, stderr, View(), if stop then [] else chunk[offset..])
        {
          ExplainsStep(input, stdout, stderr, View(), chunk[offset..]);
          if remaining > 0 {
            offset := TakeBody(chunk, offset);
          } else {
            offset, stop := TakeHeader(chunk, offset);
          }
        }
      }
      ExplainsPrefix(input, stdout, stderr, View());
    }

    /** End: every chunking delivers exactly what the whole stream means, and
      * reports whether it ended on a frame boundary. */
    method End() returns (clean: bool)
      requires Valid()
      modifies this
      ensures Delivery(stdout, stderr, clean) == Frames(true, input) && input == old(input)
    {
      hide Frames, Explains, Onward;
      ExplainsPrefix(input, stdout, stderr, View());
      AtEnd(View());
      if mode.Unknown? && headerLen > 0 {
        TurnRaw();
      }
      clean := headerLen == 0 && remaining == 0;
    }
  }

  /** Every chunking of a stream is decoded like the whole stream. */
  method DecodeStream(chunks: seq<Bytes>) returns (delivered: Delivery)
    ensures delivered == Frames(true, Flat(chunks))
  {
    hide Frames, Explains, Possible;
    var decoder := new LogDecoder();
    for i := 0 to |chunks|
      invariant decoder.Valid() && decoder.input + Flat(chunks[i..]) == Flat(chunks) && fresh(decoder.header)
    {
      assert chunks[i..][1..] == chunks[i + 1..];
      ghost var before := decoder.input;
      decoder.Push(chunks[i]);
      assert before + (chunks[i] + Flat(chunks[i + 1..])) == before + chunks[i] + Flat(chunks[i + 1..]);
    }
    assert decoder.input == Flat(chunks);
    var clean := decoder.End();
    return Delivery(decoder.stdout, decoder.stderr, clean);
  }

  // Demux

  datatype Ending = Fine | Invalid | Incomplete | Failed

  datatype Demuxed = Demuxed(stdout: Bytes, stderr: Bytes, ending: Ending)

  predicate DemuxHeader(h: Bytes)
    requires |h| >= HEADER
  {
    h[0] <= 2 && Plain(h) && Size(h) <= MAX_FRAME
  }

  // Which channel has a consumer.
  datatype Targets = Targets(stdout: bool, stderr: bool)

  function For(channel: nat, wanted: nat, open: bool, data: Bytes): Bytes {
    if channel == wanted && open then data else []
  }

  function After(stdout: Bytes, stderr: Bytes, d: Demuxed): Demuxed {
    Demuxed(stdout + d.stdout, stderr + d.stderr, d.ending)
  }

  /** What Demux makes of a whole stream; broken says that it ends in an error
    * instead of its end. */
  function DemuxAll(s: Bytes, to: Targets, broken: bool): Demuxed
    decreases |s|
  {
    if |s| < HEADER then Demuxed([], [], if broken then Failed else if s == [] then Fine else Incomplete)
    else if !DemuxHeader(s) then Demuxed([], [], Invalid)
    else
      var body := s[HEADER..][..Min(Size(s), |s| - HEADER)];
      After(For(s[0], 1, to.stdout, body), For(s[0], 2, to.stderr, body),
            if |body| < Size(s) then Demuxed([], [], if broken then Failed else Incomplete)
            else DemuxAll(s[HEADER..][|body|..], to, broken))
  }

  /** A reader that hands out one chunk, or a part of one, per read. */
  class Reader {
    var chunks: seq<Bytes>
    const broken: bool

    constructor (chunks: seq<Bytes>, broken: bool)
      ensures this.chunks == chunks && this.broken == broken
    {
      this.chunks, this.broken := chunks, broken;
    }

    method Read(limit: nat) returns (part: Bytes, done: bool)
      requires limit > 0
      modifies this
      ensures |part| <= limit && old(Flat(chunks)) == part + Flat(chunks)
      ensures done ==> chunks == [] && part == []
      ensures !done ==> part != [] || |chunks| < old(|chunks|)
    {
      if chunks == [] {
        return [], true;
      }
      part, done := chunks[0][..Min(limit, |chunks[0]|)], false;
      var left := chunks[0][|part|..];
      assert part + left == chunks[0];
      assert part + (left + Flat(chunks[1..])) == part + left + Flat(chunks[1..]);
      chunks := if left == [] then chunks[1..] else [left] + chunks[1..];
    }

    /** io.ReadFull and io.CopyN: n bytes, or all that are left. */
    method ReadFull(n: nat) returns (data: Bytes)
      modifies this
      ensures data == old(Flat(chunks))[..Min(n, |old(Flat(chunks))|)]
      ensures Flat(chunks) == old(Flat(chunks))[|data|..]
    {
      data := [];
      ghost var all := Flat(chunks);
      while |data| < n
        invariant |data| <= n && all == data + Flat(chunks)
        decreases n - |data|, |chunks|
      {
        ghost var before := Flat(chunks);
        var part, done := Read(n - |data|);
        assert data + before == data + part + Flat(chunks);
        data := data + part;
        if done {
          break;
        }
      }
    }
  }

  lemma AfterBoth(stdout: Bytes, stderr: Bytes, moreOut: Bytes, moreErr: Bytes, d: Demuxed)
    ensures After(stdout, stderr, After(moreOut, moreErr, d)) == After(stdout + moreOut, stderr + moreErr, d)
  {
  }

  lemma HeaderOf(s: Bytes)
    requires |s| >= HEADER
    ensures var h := s[..HEADER];
            h[0] == s[0] && Size(h) == Size(s) && (DemuxHeader(h) <==> DemuxHeader(s)) &&
              (LogHeader(h) <==> LogHeader(s))
  {
  }

  /** Demux, for every way the reader cuts the stream. */
  method Demux(chunks: seq<Bytes>, to: Targets, broken: bool) returns (result: Demuxed)
    ensures result == DemuxAll(Flat(chunks), to, broken)
  {
    hide Flat, DemuxHeader, Size, LogHeader;
    var source := new Reader(chunks, broken);
    var stdout: Bytes, stderr: Bytes := [], [];
    ghost var all := Flat(chunks);
    ghost var s := all;
    while true
      invariant source.broken == broken && s == Flat(source.chunks)
      invariant After(stdout, stderr, DemuxAll(s, to, broken)) == DemuxAll(all, to, broken)
      decreases |s|
    {
      var header := source.ReadFull(HEADER);
      if |header| < HEADER {
        return Demuxed(stdout, stderr, if broken then Failed else if header == [] then Fine else Incomplete);
      }
      HeaderOf(s);
      if !DemuxHeader(header) {
        return Demuxed(stdout, stderr, Invalid);
      }
      var body := source.ReadFull(Size(header));
      var moreOut, moreErr := For(header[0], 1, to.stdout, body), For(header[0], 2, to.stderr, body);
      ghost var rest := if |body| < Size(s) then Demuxed([], [], if broken then Failed else Incomplete)
                        else DemuxAll(s[HEADER..][|body|..], to, broken);
      AfterBoth(stdout, stderr, moreOut, moreErr, rest);
      stdout, stderr := stdout + moreOut, stderr + moreErr;
      if |body| < Size(header) {
        return Demuxed(stdout, stderr, if broken then Failed else Incomplete);
      }
      s := s[HEADER..][|body|..];
    }
  }

  // Where the two agree

  datatype Frame = Frame(channel: Byte, body: Bytes)

  predicate Loggable(f: Frame) {
    (f.channel == 1 || f.channel == 2) && |f.body| <= MAX_LOG_FRAME
  }

  predicate Demuxable(f: Frame) {
    f.channel <= 2 && |f.body| <= MAX_FRAME
  }

  function HeaderFor(f: Frame): (h: Bytes)
    requires Demuxable(f)
    ensures |h| == HEADER && h[0] == f.channel && Plain(h) && Size(h) == |f.body|
  {
    var n := |f.body|;
    var h := [f.channel, 0, 0, 0, n / 0x100_0000, n / 0x1_0000 % 0x100, n / 0x100 % 0x100, n % 0x100];
    assert h[4..8] == [n / 0x100_0000, n / 0x1_0000 % 0x100, n / 0x100 % 0x100, n % 0x100];
    h
  }

  predicate AllDemuxable(frames: seq<Frame>) {
    forall f :: f in frames ==> Demuxable(f)
  }

  /** A complete stream of frames. */
  function Encode(frames: seq<Frame>): Bytes
    requires AllDemuxable(frames)
  {
    if frames == [] then [] else HeaderFor(frames[0]) + frames[0].body + Encode(frames[1..])
  }

  function Bodies(frames: seq<Frame>, channel: Byte): Bytes {
    if frames == [] then [] else For(frames[0].channel, channel, true, frames[0].body) + Bodies(frames[1..], channel)
  }

  lemma FrameParts(f: Frame, rest: Bytes)
    requires Demuxable(f)
    ensures var s := HeaderFor(f) + f.body + rest;
            && |s| >= HEADER && s[0] == f.channel && Size(s) == |f.body| && DemuxHeader(s) &&
              (LogHeader(s) <==> Loggable(f))
            && (LooksRaw(s) <==> f.channel == 0)
            && s[HEADER..] == f.body + rest && s[HEADER..][..|f.body|] == f.body && s[HEADER..][|f.body|..] == rest
  {
  }

  /** A rest that holds no complete frame: a part of a header, a header that is
    * refused, or a frame whose body does not all come. */
  predicate NoFrame(rest: Bytes) {
    |rest| < HEADER || !DemuxHeader(rest) || |rest| - HEADER < Size(rest)
  }

  function RestBody(rest: Bytes, channel: nat): Bytes {
    if |rest| < HEADER || !DemuxHeader(rest) then [] else For(rest[0], channel, true, rest[HEADER..])
  }

  function RestEnding(rest: Bytes, broken: bool): Ending {
    if |rest| >= HEADER && !DemuxHeader(rest) then Invalid
    else if broken then Failed
    else if rest == [] then Fine
    else Incomplete
  }

  /** Demux on every stream: the bodies of the complete frames and what came of one
    * more, and an error that says how the stream ends. */
  lemma {:induction false} DemuxAny(frames: seq<Frame>, rest: Bytes, to: Targets, broken: bool)
    requires AllDemuxable(frames) && NoFrame(rest)
    ensures DemuxAll(Encode(frames) + rest, to, broken) ==
            Demuxed(if to.stdout then Bodies(frames, 1) + RestBody(rest, 1) else [],
                    if to.stderr then Bodies(frames, 2) + RestBody(rest, 2) else [], RestEnding(rest, broken))
  {
    hide HeaderFor, DemuxHeader, Size, LogHeader, LooksRaw, DemuxAll, RestBody, RestEnding;
    if frames == [] {
      assert Encode(frames) + rest == rest;
      DemuxRest(rest, to, broken);
    } else {
      var f, more := frames[0], Encode(frames[1..]) + rest;
      DemuxFirst(f, more, to, broken);
      assert Encode(frames) + rest == HeaderFor(f) + f.body + more;
      DemuxAny(frames[1..], rest, to, broken);
      var out, err := For(f.channel, 1, true, f.body), For(f.channel, 2, true, f.body);
      assert out + (Bodies(frames[1..], 1) + RestBody(rest, 1)) == Bodies(frames, 1) + RestBody(rest, 1);
      assert err + (Bodies(frames[1..], 2) + RestBody(rest, 2)) == Bodies(frames, 2) + RestBody(rest, 2);
    }
  }

  lemma DemuxFirst(f: Frame, more: Bytes, to: Targets, broken: bool)
    requires Demuxable(f)
    ensures DemuxAll(HeaderFor(f) + f.body + more, to, broken) ==
            After(For(f.channel, 1, to.stdout, f.body), For(f.channel, 2, to.stderr, f.body),
                  DemuxAll(more, to, broken))
  {
    hide HeaderFor, DemuxHeader, Size, LogHeader, LooksRaw;
    FrameParts(f, more);
  }

  lemma DemuxRest(rest: Bytes, to: Targets, broken: bool)
    requires NoFrame(rest)
    ensures DemuxAll(rest, to, broken) ==
            Demuxed(if to.stdout then RestBody(rest, 1) else [], if to.stderr then RestBody(rest, 2) else [],
                    RestEnding(rest, broken))
  {
    hide DemuxHeader, Size;
    if |rest| >= HEADER {
      assert rest[HEADER..][..|rest| - HEADER] == rest[HEADER..];
    }
  }

  /** So it delivers the bodies of complete frames. */
  lemma DemuxFrames(frames: seq<Frame>, to: Targets)
    requires AllDemuxable(frames)
    ensures DemuxAll(Encode(frames), to, false)
         == Demuxed(if to.stdout then Bodies(frames, 1) else [], if to.stderr then Bodies(frames, 2) else [], Fine)
  {
    hide DemuxAll, Encode;
    DemuxAny(frames, [], to, false);
    assert Encode(frames) + [] == Encode(frames);
  }

  /** Every stream is such a one. */
  lemma {:induction false} Framed(s: Bytes) returns (frames: seq<Frame>, rest: Bytes)
    ensures AllDemuxable(frames) && NoFrame(rest) && Encode(frames) + rest == s
    decreases |s|
  {
    hide HeaderFor, DemuxHeader, Size, AllDemuxable, Encode;
    if NoFrame(s) {
      frames, rest := [], s;
      EncodeNothing();
    } else {
      var f, more := Frame(s[0], s[HEADER..][..Size(s)]), [];
      HeaderUnique(s);
      more, rest := Framed(s[HEADER..][Size(s)..]);
      frames := [f] + more;
      EncodeFirst(f, more);
    }
  }

  /** And it succeeds on nothing else. */
  lemma {:induction false} DemuxedFrames(s: Bytes, to: Targets) returns (frames: seq<Frame>)
    requires DemuxAll(s, to, false).ending.Fine?
    ensures AllDemuxable(frames) && Encode(frames) == s
    decreases |s|
  {
    hide HeaderFor, DemuxHeader, Size, AllDemuxable, Encode;
    frames := [];
    if s == [] {
      EncodeNothing();
    } else {
      var f := Frame(s[0], s[HEADER..][..Size(s)]);
      HeaderUnique(s);
      var more := DemuxedFrames(s[HEADER..][Size(s)..], to);
      frames := [f] + more;
      EncodeFirst(f, more);
    }
  }

  lemma EncodeNothing()
    ensures AllDemuxable([]) && Encode([]) == []
  {
  }

  lemma EncodeFirst(f: Frame, more: seq<Frame>)
    requires Demuxable(f) && AllDemuxable(more)
    ensures AllDemuxable([f] + more) && Encode([f] + more) == HeaderFor(f) + f.body + Encode(more)
  {
  }

  lemma HeaderUnique(s: Bytes)
    requires |s| >= HEADER && DemuxHeader(s) && |s| >= HEADER + Size(s)
    ensures var f := Frame(s[0], s[HEADER..][..Size(s)]);
            Demuxable(f) && HeaderFor(f) + f.body + s[HEADER..][Size(s)..] == s
  {
    hide HeaderFor;
    var f := Frame(s[0], s[HEADER..][..Size(s)]);
    var h := HeaderFor(f);
    Big32Unique(h[4..8], s[4..8]);
    forall i | 0 <= i < HEADER
      ensures h[i] == s[i]
    {
      if i >= 4 {
        assert h[4..8][i - 4] == s[4..8][i - 4];
      }
    }
    assert h == s[..HEADER];
    assert f.body + s[HEADER..][Size(s)..] == s[HEADER..];
  }

  lemma Big32Unique(a: Bytes, b: Bytes)
    requires |a| == 4 && |b| == 4 && Big32(a) == Big32(b)
    ensures a == b
  {
    assert a[0] == b[0];
    assert a[1] == b[1];
    assert a[2] == b[2];
    assert a[3] == b[3];
  }

  predicate AllLoggable(frames: seq<Frame>) {
    forall f :: f in frames ==> Loggable(f)
  }

  predicate IsLogHeader(rest: Bytes)
    requires |rest| >= 8
  {
    rest[0] in {1, 2} && rest[1] == rest[2] == rest[3] == 0 && Big32(rest[4..8]) <= 16_777_216
  }

  /** What LogDecoder delivers of a rest that holds no complete log frame. At the
    * start of the stream text is told by its first four bytes, and shorter text
    * as well; later on only by a whole header that none writes. */
  function TailOf(first: bool, rest: Bytes): Delivery {
    if rest == [] then Delivery([], [], true)
    else if first && (|rest| < 4 || rest[0] !in {1, 2} || rest[1..4] != [0, 0, 0]) then Delivery(rest, [], true)
    else if |rest| < 8 then Delivery([], [], false)
    else if !IsLogHeader(rest) then Delivery(rest, [], true)
    else if rest[0] == 1 then Delivery(rest[8..], [], false)
    else Delivery([], rest[8..], false)
  }

  /** LogDecoder on every stream: the bodies of the log frames it begins with,
    * and what becomes of the rest. */
  lemma {:induction false} DecodeAny(first: bool, frames: seq<Frame>, rest: Bytes)
    requires AllDemuxable(frames) && AllLoggable(frames)
    requires |rest| < 8 || !IsLogHeader(rest) || |rest| - 8 < Big32(rest[4..8])
    ensures var tail := TailOf(first && frames == [], rest);
            Frames(first, Encode(frames) + rest) ==
            Delivery(Bodies(frames, 1) + tail.stdout, Bodies(frames, 2) + tail.stderr, tail.clean)
  {
    hide HeaderFor, DemuxHeader, Size, LogHeader, LooksRaw, Frames, TailOf;
    if frames == [] {
      assert Encode(frames) + rest == rest;
      DecodeRest(first, rest);
    } else {
      var f, more := frames[0], Encode(frames[1..]) + rest;
      assert f in frames;
      DecodeFirst(first, f, more);
      assert Encode(frames) + rest == HeaderFor(f) + f.body + more;
      DecodeAny(false, frames[1..], rest);
      var tail := TailOf(false, rest);
      var out, err := For(f.channel, 1, true, f.body), For(f.channel, 2, true, f.body);
      assert out + (Bodies(frames[1..], 1) + tail.stdout) == Bodies(frames, 1) + tail.stdout;
      assert err + (Bodies(frames[1..], 2) + tail.stderr) == Bodies(frames, 2) + tail.stderr;
    }
  }

  lemma DecodeFirst(first: bool, f: Frame, more: Bytes)
    requires Loggable(f) && Demuxable(f)
    ensures var d := Frames(false, more);
            Frames(first, HeaderFor(f) + f.body + more) ==
            Delivery(For(f.channel, 1, true, f.body) + d.stdout, For(f.channel, 2, true, f.body) + d.stderr, d.clean)
  {
    hide HeaderFor, DemuxHeader, Size, LogHeader, LooksRaw;
    FrameParts(f, more);
  }

  lemma DecodeRest(first: bool, rest: Bytes)
    requires |rest| < 8 || !IsLogHeader(rest) || |rest| - 8 < Big32(rest[4..8])
    ensures Frames(first, rest) == TailOf(first, rest)
  {
    if |rest| >= 8 {
      assert LogHeader(rest) <==> IsLogHeader(rest);
    }
    if |rest| >= 4 {
      assert rest[1..4] == [0, 0, 0] <==> Plain(rest);
    }
  }

  function Whole(frames: seq<Frame>): Delivery {
    Delivery(Bodies(frames, 1), Bodies(frames, 2), true)
  }

  lemma {:induction false} BodiesShort(frames: seq<Frame>)
    requires AllDemuxable(frames)
    ensures |Bodies(frames, 1)| <= |Encode(frames)|
    ensures frames != [] ==> |Bodies(frames, 1)| < |Encode(frames)|
  {
    hide HeaderFor;
    if frames != [] {
      BodiesShort(frames[1..]);
    }
  }

  /** On complete frames the two agree exactly when every frame is on channel 1
    * or 2 and of at most 16 MiB. */
  lemma {:induction false} AgreeOnFrames(first: bool, frames: seq<Frame>)
    requires AllDemuxable(frames)
    ensures Frames(first, Encode(frames)) == Whole(frames) <==> AllLoggable(frames)
  {
    hide HeaderFor, DemuxHeader, Size, LogHeader, LooksRaw;
    if frames != [] {
      var f, rest := frames[0], frames[1..];
      var s := Encode(frames);
      FrameParts(f, Encode(rest));
      if Loggable(f) {
        AgreeOnFrames(false, rest);
        var d := Frames(false, Encode(rest));
        assert Frames(first, s) == Send(if f.channel == 2 then Stderr else Stdout, f.body, d);
        AgreeOnFirst(f, rest, d);
      } else {
        assert Frames(first, s) == Delivery(s, [], true);
        BodiesShort(frames);
        assert f in frames;
      }
    }
  }

  lemma AgreeOnFirst(f: Frame, rest: seq<Frame>, d: Delivery)
    requires Loggable(f)
    ensures var frames := [f] + rest;
            Send(if f.channel == 2 then Stderr else Stdout, f.body, d) == Whole(frames) <==> d == Whole(rest)
  {
    var frames := [f] + rest;
    assert frames[1..] == rest && frames[0] == f;
    var sent := Send(if f.channel == 2 then Stderr else Stdout, f.body, d);
    if sent == Whole(frames) {
      var out, err := For(f.channel, 1, true, f.body), For(f.channel, 2, true, f.body);
      assert sent.stdout == out + d.stdout && sent.stderr == err + d.stderr;
      assert sent.stdout[|out|..] == d.stdout && (out + Bodies(rest, 1))[|out|..] == Bodies(rest, 1);
      assert sent.stderr[|err|..] == d.stderr && (err + Bodies(rest, 2))[|err|..] == Bodies(rest, 2);
    }
  }

  /** On a stream Demux accepts, LogDecoder delivers the same bytes on each
    * channel exactly when it is made of frames on channels 1 and 2 of at most
    * 16 MiB each. */
  lemma Agree(s: Bytes)
    requires DemuxAll(s, Targets(true, true), false).ending.Fine?
    ensures Frames(true, s) == Delivery(DemuxAll(s, Targets(true, true), false).stdout,
                                        DemuxAll(s, Targets(true, true), false).stderr, true)
       <==> exists frames: seq<Frame> :: AllDemuxable(frames) && AllLoggable(frames) && Encode(frames) == s
  {
    hide AllDemuxable, AllLoggable, Frames, DemuxAll, Encode;
    var to := Targets(true, true);
    var some := DemuxedFrames(s, to);
    DemuxFrames(some, to);
    AgreeOnFrames(true, some);
    forall frames | AllDemuxable(frames) && AllLoggable(frames) && Encode(frames) == s
      ensures Frames(true, s) == Whole(some)
    {
      DemuxFrames(frames, to);
      AgreeOnFrames(true, frames);
    }
  }

  /** A frame on channel 0, which Demux delivers to standard output, makes the log
    * decoder deliver the whole stream raw. */
  lemma ChannelZeroDiffers(body: Bytes)
    requires |body| <= MAX_FRAME
    ensures var frames := [Frame(0, body)];
      && AllDemuxable(frames) && !AllLoggable(frames) && Frames(true, Encode(frames)) != Whole(frames)
  {
    var frames := [Frame(0, body)];
    assert frames[0] in frames;
    AgreeOnFrames(true, frames);
  }
}
