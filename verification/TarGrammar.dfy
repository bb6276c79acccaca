/** What a valid archive is, said without a reader: pieces, each a header block
  * with its data and padding, and zero blocks to the end. */
module TarGrammar {

  import opened Wrappers
  import opened Octets
  import opened TarBytes
  import opened TarHeader
  import opened TarHeaderCode
  import opened TarPax
  import opened TarWalk

  datatype Piece = Piece(block: Bytes, body: Bytes, padding: Bytes)

  function Written(p: Piece): Bytes {
    p.block + p.body + p.padding
  }

  function Joined(pieces: seq<Piece>): Bytes {
    if pieces == [] then [] else Written(pieces[0]) + Joined(pieces[1..])
  }

  // Blocks of type x hold the records of one entry and blocks of type g those of
  // all entries from there on.
  predicate IsLocal(p: Piece) {
    |p.block| == 512 && p.block[156] == 120
  }

  predicate IsGlobal(p: Piece) {
    |p.block| == 512 && p.block[156] == 103
  }

  function RecordsOf(p: Piece): Pax {
    match Parse(p.body, map[])
    case Some(pax) => pax
    case None => map[]
  }

  /** The global records after the pieces: the latest value of a key wins. */
  function Globals(pieces: seq<Piece>): Pax {
    if pieces == [] then map[]
    else
      var last := pieces[|pieces| - 1];
      Globals(pieces[..|pieces| - 1]) + (if IsGlobal(last) then RecordsOf(last) else map[])
  }

  /** The records that hold for what follows the pieces: local ones win. */
  function InForce(pieces: seq<Piece>): Pax {
    Globals(pieces) +
    (if pieces != [] && IsLocal(pieces[|pieces| - 1]) then RecordsOf(pieces[|pieces| - 1]) else map[])
  }

  function Metadata(pieces: seq<Piece>): nat {
    if pieces == [] then 0
    else
      var last := pieces[|pieces| - 1];
      Metadata(pieces[..|pieces| - 1]) + (if IsLocal(last) || IsGlobal(last) then 1 else 0)
  }

  function HeaderAfter(done: seq<Piece>, block: Bytes): Option<Header>
    requires |block| == 512
  {
    var pax := InForce(done);
    match Decode(block, if PATH in pax then Some(pax[PATH]) else None)
    case None => None
    case Some(h) => if block[156] == 120 || block[156] == 103 then Some(h) else Apply(h, pax)
  }

  /** A piece that may follow the pieces done. */
  predicate Follows(done: seq<Piece>, p: Piece, tooLarge: GlobalLimit) {
    && |p.block| == 512 && !AllZero(p.block)
    && |p.padding| == (512 - |p.body| % 512) % 512 && AllZero(p.padding)
    && var h := HeaderAfter(done, p.block);
    && h.Some? && h.value.size == |p.body|
    && if IsLocal(p) || IsGlobal(p) then
         && |p.body| <= 16384 && Metadata(done) < 100_000 && Parse(p.body, map[]).Some?
         && (done != [] ==> !IsLocal(done[|done| - 1]))
         && (IsGlobal(p) ==> !tooLarge(Globals(done + [p])))
       else h.value.kind.File? || p.body == []
  }

  /** Pieces that go on from the pieces done to the end of an archive. */
  ghost predicate Whole(done: seq<Piece>, pieces: seq<Piece>, tooLarge: GlobalLimit)
    decreases |pieces|
  {
    if pieces == [] then done == [] || !IsLocal(done[|done| - 1])
    else Follows(done, pieces[0], tooLarge) && Whole(done + [pieces[0]], pieces[1..], tooLarge)
  }

  predicate Ending(zeros: Bytes) {
    |zeros| >= 1024 && |zeros| % 512 == 0 && AllZero(zeros)
  }

  /** The entries of the pieces: each has its own block's header, changed by the
    * records in force, and its body. */
  ghost predicate Deliver(done: seq<Piece>, pieces: seq<Piece>, entries: seq<Entry>)
    decreases |pieces|
  {
    if pieces == [] then entries == []
    else if IsLocal(pieces[0]) || IsGlobal(pieces[0]) then Deliver(done + [pieces[0]], pieces[1..], entries)
    else
      && entries != [] && |pieces[0].block| == 512
      && Some(entries[0].header) == HeaderAfter(done, pieces[0].block) && entries[0].body == pieces[0].body
      && Deliver(done + [pieces[0]], pieces[1..], entries[1..])
  }

  // The reader's state after the pieces.
  function StateOf(done: seq<Piece>): State {
    State(Globals(done),
          if done != [] && IsLocal(done[|done| - 1]) then Some(RecordsOf(done[|done| - 1])) else None,
          Metadata(done))
  }

  lemma InForceIs(done: seq<Piece>)
    ensures InForce(done) == Merged(StateOf(done))
    ensures PathOf(StateOf(done)) == if PATH in InForce(done) then Some(InForce(done)[PATH]) else None
  {
  }

  lemma More1(done: seq<Piece>, p: Piece)
    ensures Globals(done + [p]) == Globals(done) + (if IsGlobal(p) then RecordsOf(p) else map[])
    ensures Metadata(done + [p]) == Metadata(done) + (if IsLocal(p) || IsGlobal(p) then 1 else 0)
  {
    assert (done + [p])[..|done|] == done;
  }

  lemma DecodeKind(block: Bytes, path: Option<Bytes>)
    requires |block| == 512 && Decode(block, path).Some?
    ensures IsPax(Decode(block, path).value.kind) <==> block[156] == 120 || block[156] == 103
    ensures Decode(block, path).value.kind.PaxGlobalHeader? <==> block[156] == 103
  {
  }

  ghost function EntriesOf(done: seq<Piece>, p: Piece): seq<Entry>
    requires |p.block| == 512
  {
    if IsLocal(p) || IsGlobal(p) || HeaderAfter(done, p.block).None? then []
    else [Entry(HeaderAfter(done, p.block).value, p.body)]
  }

  /** A piece that may follow is exactly what one turn of the reader uses up. */
  lemma PieceTurn(done: seq<Piece>, p: Piece, more: Bytes, tooLarge: GlobalLimit)
    requires Follows(done, p, tooLarge)
    ensures TakeTurn(Written(p) + more, StateOf(done), tooLarge) ==
            More(EntriesOf(done, p), |Written(p)|, StateOf(done + [p]))
  {
    hide Decode, Parse, Apply, AllZero;
    var data := Written(p) + more;
    assert data[..512] == p.block;
    var rest := p.body + p.padding + more;
    assert data[512..] == rest;
    assert rest[..|p.body|] == p.body;
    assert rest[|p.body|..|p.body| + |p.padding|] == p.padding;
    InForceIs(done);
    More1(done, p);
    if Decode(p.block, PathOf(StateOf(done))).Some? {
      DecodeKind(p.block, PathOf(StateOf(done)));
    }
  }

  // The header that a turn which goes on has read.
  lemma TurnHeader(done: seq<Piece>, data: Bytes, tooLarge: GlobalLimit)
    requires TakeTurn(data, StateOf(done), tooLarge).More?
    ensures |data| >= 512 && !AllZero(data[..512]) && HeaderAfter(done, data[..512]).Some?
    ensures var turn := TakeTurn(data, StateOf(done), tooLarge);
            var size := HeaderAfter(done, data[..512]).value.size;
            size >= 0 && HasBlock(data[512..], size) && turn.used == 512 + size + PaddingSize(size)
  {
    hide Decode, Parse, Apply, AllZero, HasBlock, PaddingSize;
    InForceIs(done);
    if Decode(data[..512], PathOf(StateOf(done))).Some? {
      DecodeKind(data[..512], PathOf(StateOf(done)));
    }
  }

  /** And a turn that goes on uses up such a piece. */
  lemma TurnPiece(done: seq<Piece>, data: Bytes, tooLarge: GlobalLimit) returns (p: Piece)
    requires TakeTurn(data, StateOf(done), tooLarge).More?
    ensures Follows(done, p, tooLarge)
    ensures data == Written(p) + data[TakeTurn(data, StateOf(done), tooLarge).used..]
  {
    hide Decode, Parse, Apply, AllZero;
    TurnHeader(done, data, tooLarge);
    var turn := TakeTurn(data, StateOf(done), tooLarge);
    var rest := data[512..];
    var size := HeaderAfter(done, data[..512]).value.size;
    p := Piece(data[..512], rest[..size], rest[size..size + PaddingSize(size)]);
    More1(done, p);
    InForceIs(done);
    DecodeKind(p.block, PathOf(StateOf(done)));
    assert data == Written(p) + data[turn.used..] by {
      hide TakeTurn;
    }
  }

  lemma {:induction false} PiecesAreWalked(done: seq<Piece>, pieces: seq<Piece>, zeros: Bytes, tooLarge: GlobalLimit)
    requires Whole(done, pieces, tooLarge) && Ending(zeros)
    ensures var walked := Walk(Joined(pieces) + zeros, StateOf(done), tooLarge);
            walked.ok && Deliver(done, pieces, walked.entries)
    decreases |pieces|
  {
    hide TakeTurn, Follows, HeaderAfter;
    var data := Joined(pieces) + zeros;
    if pieces == [] {
      assert data == zeros;
      EndTurn(done, zeros, tooLarge);
    } else {
      var p := pieces[0];
      var more := Joined(pieces[1..]) + zeros;
      PieceTurn(done, p, more, tooLarge);
      assert data == Written(p) + more;
      assert data[|Written(p)|..] == more;
      PiecesAreWalked(done + [p], pieces[1..], zeros, tooLarge);
      var walked := Walk(more, StateOf(done + [p]), tooLarge);
      FollowsHas(done, p, tooLarge);
      assert (EntriesOf(done, p) + walked.entries)[|EntriesOf(done, p)|..] == walked.entries;
      assert EntriesOf(done, p) == [] ==> EntriesOf(done, p) + walked.entries == walked.entries;
    }
  }

  lemma FollowsHas(done: seq<Piece>, p: Piece, tooLarge: GlobalLimit)
    requires Follows(done, p, tooLarge)
    ensures |p.block| == 512 && HeaderAfter(done, p.block).Some?
  {
  }

  lemma EndTurn(done: seq<Piece>, zeros: Bytes, tooLarge: GlobalLimit)
    requires Ending(zeros) && (done == [] || !IsLocal(done[|done| - 1]))
    ensures TakeTurn(zeros, StateOf(done), tooLarge) == Stop(Walked([], true))
  {
  }

  lemma EndIs(done: seq<Piece>, data: Bytes, tooLarge: GlobalLimit)
    requires var turn := TakeTurn(data, StateOf(done), tooLarge);
             turn.Stop? && turn.result.ok
    ensures Ending(data) && (done == [] || !IsLocal(done[|done| - 1]))
  {
    hide Decode, Parse, Apply;
    assert data == data[..512] + data[512..];
  }

  lemma {:induction false} WalkedIsPieces(done: seq<Piece>, data: Bytes, tooLarge: GlobalLimit)
    returns (pieces: seq<Piece>, zeros: Bytes)
    requires Walk(data, StateOf(done), tooLarge).ok
    ensures Whole(done, pieces, tooLarge) && Ending(zeros) && data == Joined(pieces) + zeros
    decreases |data|
  {
    hide TakeTurn, Follows, HeaderAfter;
    var turn := TakeTurn(data, StateOf(done), tooLarge);
    if turn.Stop? {
      EndIs(done, data, tooLarge);
      pieces, zeros := [], data;
    } else {
      var p := TurnPiece(done, data, tooLarge);
      var rest := data[turn.used..];
      PieceTurn(done, p, rest, tooLarge);
      var more, end := WalkedIsPieces(done + [p], rest, tooLarge);
      pieces, zeros := [p] + more, end;
      assert pieces[1..] == more;
      assert data == Joined(pieces) + zeros by {
        assert data == Written(p) + (Joined(more) + zeros);
      }
    }
  }

  ghost predicate Formed(data: Bytes, pieces: seq<Piece>, zeros: Bytes, tooLarge: GlobalLimit) {
    Whole([], pieces, tooLarge) && Ending(zeros) && data == Joined(pieces) + zeros
  }

  /** The reader accepts exactly the archives that are made of such pieces, and
    * delivers exactly their entries, under the records in force at each. */
  lemma AcceptedIsFormed(data: Bytes, tooLarge: GlobalLimit)
    ensures Walk(data, START, tooLarge).ok <==> exists pieces, zeros :: Formed(data, pieces, zeros, tooLarge)
    ensures forall pieces, zeros :: Formed(data, pieces, zeros, tooLarge) ==>
      Deliver([], pieces, Walk(data, START, tooLarge).entries)
  {
    assert StateOf([]) == START;
    if Walk(data, START, tooLarge).ok {
      var pieces, zeros := WalkedIsPieces([], data, tooLarge);
      assert Formed(data, pieces, zeros, tooLarge);
    }
    forall pieces, zeros | Formed(data, pieces, zeros, tooLarge)
      ensures Walk(data, START, tooLarge).ok && Deliver([], pieces, Walk(data, START, tooLarge).entries)
    {
      PiecesAreWalked([], pieces, zeros, tooLarge);
    }
  }
  lemma {:induction false} SumChanged(s: Bytes, i: nat, b: Byte)
    requires i < |s|
    ensures Sum(s[i := b]) == Sum(s) - s[i] + b
  {
    assert s == s[..i] + [s[i]] + s[i + 1..] && s[i := b] == s[..i] + [b] + s[i + 1..];
    SumConcat(s[..i] + [s[i]], s[i + 1..]);
    SumConcat(s[..i] + [b], s[i + 1..]);
    SumConcat(s[..i], [s[i]]);
    SumConcat(s[..i], [b]);
  }

  /** One changed byte of a block is seen, wherever it is outside the checksum. */
  lemma ChangedByteIsRefused(block: Bytes, i: nat, b: Byte, path: Option<Bytes>)
    requires |block| == 512 && Decode(block, path).Some?
    requires i < 148 || 156 <= i < 512
    requires b != block[i]
    ensures Decode(block[i := b], path).None?
  {
    hide Integer, TextField;
    var bad := block[i := b];
    assert bad[148..156] == block[148..156];
    if i < 148 {
      assert bad[..148] == block[..148][i := b] && bad[156..] == block[156..];
      SumChanged(block[..148], i, b);
    } else {
      assert bad[..148] == block[..148] && bad[156..] == block[156..][i - 156 := b];
      SumChanged(block[156..], i - 156, b);
    }
  }
}
