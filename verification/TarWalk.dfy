/** Reading an archive as a stream: source, body and Walk. */
module TarWalk {

  import opened Wrappers
  import opened Octets
  import opened TarBytes
  import opened TarHeader
  import opened TarHeaderCode
  import opened TarPax

  const MAX_METADATA_BYTES: nat := 16384
  const MAX_METADATA: nat := 100_000

  function PaddingSize(size: nat): nat {
    (BLOCK - size % BLOCK) % BLOCK
  }

  datatype Entry = Entry(header: Header, body: Bytes)

  /** What a walk delivers: the entries whose bodies were read to their end, and
    * whether the archive was valid and complete. */
  datatype Walked = Walked(entries: seq<Entry>, ok: bool)

  // Size of the merged global headers as JSON, which Walk limits.
  type GlobalLimit = Pax -> bool

  datatype State = State(global: Pax, local: Option<Pax>, metadata: nat)

  const START := State(map[], None, 0)

  function PathOf(st: State): Option<Bytes> {
    if st.local.Some? && PATH in st.local.value then Some(st.local.value[PATH])
    else if PATH in st.global then Some(st.global[PATH])
    else None
  }

  function Merged(st: State): Pax {
    st.global + (if st.local.Some? then st.local.value else map[])
  }

  // A data block and its padding at the start of data.
  predicate HasBlock(data: Bytes, size: nat) {
    |data| >= size + PaddingSize(size) && AllZero(data[size..size + PaddingSize(size)])
  }

  /** A PAX or global header: its records join the state. */
  function WalkPax(h: Header, rest: Bytes, st: State, tooLarge: GlobalLimit): Option<State>
    requires h.size >= 0
  {
    if h.size > MAX_METADATA_BYTES || st.metadata + 1 > MAX_METADATA || st.local.Some? then None
    else if |rest| < h.size then None
    else
      match Parse(rest[..h.size], map[])
      case None => None
      case Some(pax) =>
        if !HasBlock(rest, h.size) then None
        else if h.kind.PaxGlobalHeader? then
          if tooLarge(st.global + pax) then None else Some(State(st.global + pax, None, st.metadata + 1))
        else Some(State(st.global, Some(pax), st.metadata + 1))
  }

  predicate ValidEnd(rest: Bytes, st: State) {
    && |rest| >= BLOCK && st.local.None? && AllZero(rest) && |rest| % BLOCK == 0
  }

  predicate IsPax(kind: Kind) {
    kind.PaxHeader? || kind.PaxGlobalHeader?
  }

  /** One turn of Walk's loop: it stops, or uses up a header with its data and
    * goes on. */
  datatype Turn = Stop(result: Walked) | More(entries: seq<Entry>, used: nat, next: State)

  function PaxTurn(h: Header, rest: Bytes, st: State, tooLarge: GlobalLimit): (t: Turn)
    requires h.size >= 0
    ensures t.More? ==> BLOCK <= t.used <= BLOCK + |rest|
  {
    match WalkPax(h, rest, st, tooLarge)
    case None => Stop(Walked([], false))
    case Some(next) => More([], BLOCK + h.size + PaddingSize(h.size), next)
  }

  function EntryTurn(h: Header, rest: Bytes, st: State): (t: Turn)
    requires h.size >= 0
    ensures t.More? ==> BLOCK <= t.used <= BLOCK + |rest|
  {
    match Apply(h, Merged(st))
    case None => Stop(Walked([], false))
    case Some(full) =>
      if (!full.kind.File? && full.size != 0) || |rest| < full.size then Stop(Walked([], false))
      else
        var entry := Entry(full, rest[..full.size]);
        if !HasBlock(rest, full.size) then Stop(Walked([entry], false))
        else More([entry], BLOCK + full.size + PaddingSize(full.size), st.(local := None))
  }

  function TakeTurn(data: Bytes, st: State, tooLarge: GlobalLimit): (t: Turn)
    ensures t.More? ==> 0 < t.used <= |data|
  {
    if |data| < BLOCK then Stop(Walked([], false))
    else if AllZero(data[..BLOCK]) then Stop(Walked([], ValidEnd(data[BLOCK..], st)))
    else
      match Decode(data[..BLOCK], PathOf(st))
      case None => Stop(Walked([], false))
      case Some(h) =>
        if IsPax(h.kind) then PaxTurn(h, data[BLOCK..], st, tooLarge) else EntryTurn(h, data[BLOCK..], st)
  }

  /** Walk on the whole input at once. */
  function Walk(data: Bytes, st: State, tooLarge: GlobalLimit): Walked
    decreases |data|
  {
    match TakeTurn(data, st, tooLarge)
    case Stop(result) => result
    case More(entries, used, next) =>
      var more := Walk(data[used..], next, tooLarge);
      Walked(entries + more.entries, more.ok)
  }

  lemma {:induction false} FlatDrop(chunks: seq<Bytes>)
    requires chunks != []
    ensures Flat(chunks) == chunks[0] + Flat(chunks[1..])
  {
  }

  /** The reader hands out one chunk per read, an empty read included, and
    * reports the end either with the last chunk or by a read of its own. */
  class Source {
    var chunks: seq<Bytes>
    var pending: Bytes
    var eof: bool
    const endsWithData: bool

    constructor (chunks: seq<Bytes>, endsWithData: bool)
      ensures Valid() && Rest() == Flat(chunks)
    {
      this.chunks, this.endsWithData := chunks, endsWithData;
      pending, eof := [], false;
    }

    ghost predicate Valid()
      reads this
    {
      eof ==> chunks == []
    }

    ghost function Rest(): Bytes
      reads this
    {
      pending + Flat(chunks)
    }

    lemma NothingLeft()
      requires pending == [] && chunks == []
      ensures Rest() == []
    {
    }

    /** take: at most limit bytes, and none only at the end. */
    method Take(limit: nat) returns (part: Bytes)
      requires Valid()
      modifies this
      ensures Valid() && |part| <= limit
      ensures old(Rest()) == part + Rest()
      ensures part == [] && limit > 0 ==> Rest() == [] && eof
      ensures |chunks| <= old(|chunks|)
      ensures part == [] && limit > 0 ==> old(Rest()) == []
    {
      while pending == [] && !eof
        invariant Valid() && Rest() == old(Rest()) && |chunks| <= old(|chunks|)
        decreases |chunks|, if eof then 0 else 1
      {
        if chunks == [] {
          eof := true;
        } else {
          FlatDrop(chunks);
          pending, chunks := chunks[0], chunks[1..];
          eof := chunks == [] && endsWithData;
        }
      }
      part := pending[..if limit < |pending| then limit else |pending|];
      pending := pending[|part|..];
      assert part + pending + Flat(chunks) == part + (pending + Flat(chunks));
    }

    /** exact: all of size bytes, or an error if the input is shorter. */
    method Exact(size: nat) returns (result: Option<Bytes>)
      requires Valid()
      modifies this
      ensures Valid()
      ensures result.Some? <==> old(|Rest()|) >= size
      ensures result.Some? ==> |result.value| == size && old(Rest()) == result.value + Rest()
    {
      var data: Bytes := [];
      while |data| < size
        invariant Valid() && |data| <= size && old(Rest()) == data + Rest()
        decreases size - |data|
      {
        ghost var before := Rest();
        var part := Take(size - |data|);
        if part == [] {
          return None;
        }
        assert data + before == data + part + Rest();
        data := data + part;
      }
      result := Some(data);
    }

    /** body.Read, repeated by a visitor with buffers of any size. A body that
      * ends early is an error. */
    method ReadBody(size: nat) returns (result: Option<Bytes>)
      requires Valid()
      modifies this
      ensures Valid()
      ensures result.Some? <==> old(|Rest()|) >= size
      ensures result.Some? ==> |result.value| == size && old(Rest()) == result.value + Rest()
    {
      var data: Bytes := [];
      var remaining := size;
      while remaining > 0
        invariant Valid() && remaining == size - |data| >= 0 && old(Rest()) == data + Rest()
        decreases remaining
      {
        var buffer: int := *;
        ghost var before := Rest();
        var part := Take(Min(if buffer <= 0 then 1 else buffer, Min(remaining, 65536)));
        if part == [] {
          return None;
        }
        assert data + before == data + part + Rest();
        data := data + part;
        remaining := remaining - |part|;
      }
      result := Some(data);
    }

    /** A block's padding, which must be zero. */
    method SkipPadding(size: nat) returns (ok: bool)
      requires Valid()
      modifies this
      ensures Valid()
      ensures ok <==> old(|Rest()|) >= PaddingSize(size) && AllZero(old(Rest())[..PaddingSize(size)])
      ensures ok ==> Rest() == old(Rest())[PaddingSize(size)..]
    {
      var padding := Exact(PaddingSize(size));
      ok := padding.Some? && AllZero(padding.value);
    }

    /** Everything after the first zero block of the end. */
    method ReadEnd(st: State) returns (ok: bool)
      requires Valid()
      modifies this
      ensures ok <==> ValidEnd(old(Rest()), st)
    {
      hide AllZero, Rest;
      ghost var all := Rest();
      var second := Exact(BLOCK);
      if second.None? || st.local.Some? || !AllZero(second.value) {
        if second.Some? && !AllZero(second.value) {
          assert all[..BLOCK] == second.value;
          ZeroPrefix(all, BLOCK);
        }
        return false;
      }
      var trailing := 0;
      while !eof || pending != []
        invariant Valid() && trailing + BLOCK + |Rest()| == |all|
        invariant AllZero(all[..BLOCK + trailing]) && all[BLOCK + trailing..] == Rest()
        decreases |Rest()|, if eof then 0 else 1
      {
        ghost var before := Rest();
        var part := Take(65536);
        assert all[BLOCK + trailing..][..|part|] == part;
        ZeroMore(all, BLOCK + trailing, part);
        trailing := trailing + |part|;
        if !AllZero(part) {
          ZeroPrefix(all, BLOCK + trailing);
          return false;
        }
        if part == [] {
          break;
        }
      }
      if pending == [] && eof {
        NothingLeft();
      }
      assert all[..BLOCK + trailing] == all;
      ok := trailing % BLOCK == 0;
    }
  }

  lemma ZeroPrefix(all: Bytes, n: nat)
    requires n <= |all| && !AllZero(all[..n])
    ensures !AllZero(all)
  {
  }

  lemma ZeroMore(all: Bytes, n: nat, part: Bytes)
    requires n + |part| <= |all| && AllZero(all[..n]) && all[n..][..|part|] == part
    ensures AllZero(all[..n + |part|]) <==> AllZero(part)
  {
    assert all[..n + |part|] == all[..n] + part;
    assert forall i :: 0 <= i < |part| ==> all[..n + |part|][n + i] == part[i];
  }

  method ReadPax(source: Source, h: Header, st: State, tooLarge: GlobalLimit) returns (turn: Turn)
    requires source.Valid() && h.size >= 0
    modifies source
    ensures source.Valid() && turn == PaxTurn(h, old(source.Rest()), st, tooLarge)
    ensures turn.More? ==> source.Rest() == old(source.Rest())[turn.used - BLOCK..]
  {
    hide Parse, HasBlock, AllZero, PaddingSize;
    var stop := Stop(Walked([], false));
    if h.size > MAX_METADATA_BYTES || st.metadata + 1 > MAX_METADATA || st.local.Some? {
      return stop;
    }
    ghost var rest := source.Rest();
    var data := source.Exact(h.size);
    if data.None? {
      return stop;
    }
    assert rest[..h.size] == data.value && source.Rest() == rest[h.size..];
    var pax := ParsePax(data.value);
    if pax.None? {
      return stop;
    }
    var ok := source.SkipPadding(h.size);
    PaddingAfter(rest, h.size);
    if !ok || (h.kind.PaxGlobalHeader? && tooLarge(st.global + pax.value)) {
      return stop;
    }
    var next := if h.kind.PaxGlobalHeader? then State(st.global + pax.value, None, st.metadata + 1)
                else State(st.global, pax, st.metadata + 1);
    turn := More([], BLOCK + h.size + PaddingSize(h.size), next);
  }

  lemma PaddingAfter(rest: Bytes, size: nat)
    requires |rest| >= size
    ensures HasBlock(rest, size) <==> |rest[size..]| >= PaddingSize(size) && AllZero(rest[size..][..PaddingSize(size)])
    ensures HasBlock(rest, size) ==> rest[size..][PaddingSize(size)..] == rest[size + PaddingSize(size)..]
  {
    if |rest[size..]| >= PaddingSize(size) {
      assert rest[size..][..PaddingSize(size)] == rest[size..size + PaddingSize(size)];
    }
  }

  method ReadEntry(source: Source, h: Header, st: State) returns (turn: Turn)
    requires source.Valid() && h.size >= 0
    modifies source
    ensures source.Valid() && turn == EntryTurn(h, old(source.Rest()), st)
    ensures turn.More? ==> source.Rest() == old(source.Rest())[turn.used - BLOCK..]
  {
    hide Apply;
    var full := Apply(h, Merged(st));
    if full.None? || (!full.value.kind.File? && full.value.size != 0) {
      return Stop(Walked([], false));
    }
    ghost var rest := source.Rest();
    var body := source.ReadBody(full.value.size);
    if body.None? {
      return Stop(Walked([], false));
    }
    assert rest[..full.value.size] == body.value && source.Rest() == rest[full.value.size..];
    var entry := Entry(full.value, body.value);
    var ok := source.SkipPadding(full.value.size);
    PaddingAfter(rest, full.value.size);
    turn := if ok then More([entry], BLOCK + full.value.size + PaddingSize(full.value.size), st.(local := None))
            else Stop(Walked([entry], false));
  }

  method ReadTurn(source: Source, st: State, tooLarge: GlobalLimit) returns (turn: Turn)
    requires source.Valid()
    modifies source
    ensures turn == TakeTurn(old(source.Rest()), st, tooLarge)
    ensures turn.More? ==> source.Valid() && source.Rest() == old(source.Rest())[turn.used..]
  {
    hide Decode, PaxTurn, EntryTurn, ValidEnd;
    ghost var data := source.Rest();
    var block := source.Exact(BLOCK);
    if block.None? {
      return Stop(Walked([], false));
    }
    assert data[..BLOCK] == block.value && data[BLOCK..] == source.Rest();
    if AllZero(block.value) {
      var ok := source.ReadEnd(st);
      return Stop(Walked([], ok));
    }
    var h := DecodeHeader(block.value, PathOf(st));
    if h.None? {
      return Stop(Walked([], false));
    }
    if IsPax(h.value.kind) {
      turn := ReadPax(source, h.value, st, tooLarge);
    } else {
      turn := ReadEntry(source, h.value, st);
    }
    if turn.More? {
      assert data[BLOCK..][turn.used - BLOCK..] == data[turn.used..];
    }
  }

  /** Walk. Whatever the reads deliver at a time, the result is that of the
    * whole input. */
  method WalkStream(source: Source, tooLarge: GlobalLimit) returns (result: Walked)
    requires source.Valid()
    modifies source
    ensures result == Walk(old(source.Rest()), START, tooLarge)
  {
    hide TakeTurn;
    var st := START;
    var entries: seq<Entry> := [];
    ghost var input := source.Rest();
    while true
      invariant source.Valid()
      invariant var more := Walk(source.Rest(), st, tooLarge);
                Walk(input, START, tooLarge) == Walked(entries + more.entries, more.ok)
      decreases |source.Rest()|
    {
      ghost var data := source.Rest();
      var turn := ReadTurn(source, st, tooLarge);
      if turn.Stop? {
        return Walked(entries + turn.result.entries, turn.result.ok);
      }
      ghost var more := Walk(data[turn.used..], turn.next, tooLarge);
      assert entries + (turn.entries + more.entries) == entries + turn.entries + more.entries;
      entries, st := entries + turn.entries, turn.next;
    }
  }
}
