/** Streams that take fewer octets than offered, and the loops that insist. */
module Streams {
  import opened Octets
  import opened HttpMessage

  /** What the environment answers to one write: take up to `n`, or fail. */
  datatype Grant = Accept(n: nat) | Refuse(error: Error)

  /** A peer whose octets arrive in slices; after the last one the stream ends. */
  class ReadStream {
    var arriving: seq<string>

    constructor (arriving: seq<string>)
      ensures this.arriving == arriving
    {
      this.arriving := arriving;
    }

    /** One read into `space` octets; what does not fit arrives next. */
    method ReadSome(space: nat) returns (r: Result<string>)
      modifies this
      ensures if old(arriving) == [] then r == Err(Eof) && arriving == []
              else if |old(arriving)[0]| <= space then r == Ok(old(arriving)[0]) && arriving == old(arriving)[1..]
              else r == Ok(old(arriving)[0][..space]) && arriving == [old(arriving)[0][space..]] + old(arriving)[1..]
    {
      if arriving == [] {
        return Err(Eof);
      }
      var first := arriving[0];
      if |first| <= space {
        arriving := arriving[1..];
        return Ok(first);
      }
      arriving := [first[space..]] + arriving[1..];
      r := Ok(first[..space]);
    }
  }

  /** The writing half of a connection. `grants` is the environment's choice for
      every write to come; `written` is what reached the peer. */
  class WriteStream {
    const grants: nat -> Grant
    var turn: nat
    var written: string

    constructor (grants: nat -> Grant)
      ensures this.grants == grants && written == ""
    {
      this.grants := grants;
      turn, written := 0, "";
    }

    /** The peer keeps reading: every write takes something. */
    ghost predicate Generous()
    {
      forall k :: grants(k).Accept? && grants(k).n > 0
    }

    method WriteSome(source: string) returns (r: Result<nat>)
      modifies this
      ensures r.Ok? ==> r.value <= |source| && written == old(written) + source[..r.value]
      ensures r.Err? ==> written == old(written)
      ensures Generous() ==> r.Ok? && (source != "" ==> r.value > 0)
    {
      var grant := grants(turn);
      turn := turn + 1;
      if grant.Refuse? {
        return Err(grant.error);
      }
      var n := if grant.n < |source| then grant.n else |source|;
      written := written + source[..n];
      r := Ok(n);
    }

    /** The scattered form takes octets across the pieces, in order. */
    method WritevSome(pieces: seq<string>) returns (r: Result<nat>)
      modifies this
      ensures r.Ok? ==>
                r.value <= |Concat(pieces)| && written == old(written) + Concat(pieces)[..r.value]
      ensures r.Err? ==> written == old(written)
      ensures Generous() ==> r.Ok? && (Concat(pieces) != "" ==> r.value > 0)
    {
      r := WriteSome(Concat(pieces));
    }
  }

  /** Write everything, whatever each write takes. */
  method WriteAll(stream: WriteStream, source: string) returns (r: Result<()>)
    modifies stream
    ensures old(stream.written) <= stream.written <= old(stream.written) + source
    ensures r.Ok? ==> stream.written == old(stream.written) + source
    ensures stream.Generous() ==> r.Ok?
  {
    var done: nat := 0;
    while done < |source|
      invariant 0 <= done <= |source|
      invariant stream.written == old(stream.written) + source[..done]
    {
      var n := stream.WriteSome(source[done..]);
      if n.Err? {
        return Err(n.error);
      }
      if n.value == 0 {
        return Err(Eof);
      }
      assert source[..done] + source[done..][..n.value] == source[..done + n.value];
      done := done + n.value;
    }
    assert source[..|source|] == source;
    r := Ok(());
  }

  // ── scattered writes ────────────────────────────────────────────────────────

  /** Octets in front of the `(piece, offset)` cursor. */
  function Position(pieces: seq<string>, piece: nat, offset: nat): (n: nat)
    requires piece <= |pieces|
  {
    |Concat(pieces[..piece])| + offset
  }

  /** A cursor that `writev_all` stops at between submissions. */
  predicate AtCursor(pieces: seq<string>, piece: nat, offset: nat)
  {
    && piece <= |pieces|
    && (offset != 0 ==> piece < |pieces| && offset < |pieces[piece]|)
  }

  lemma {:induction false} CursorStep(pieces: seq<string>, piece: nat)
    requires piece < |pieces|
    ensures Concat(pieces) == Concat(pieces[..piece]) + pieces[piece] + Concat(pieces[piece + 1..])
    ensures Position(pieces, piece + 1, 0) == Position(pieces, piece, |pieces[piece]|)
  {
    hide Concat;
    assert pieces == pieces[..piece] + [pieces[piece]] + pieces[piece + 1..];
    ConcatAppend(pieces[..piece] + [pieces[piece]], pieces[piece + 1..]);
    ConcatAppend(pieces[..piece], [pieces[piece]]);
    assert pieces[..piece + 1] == pieces[..piece] + [pieces[piece]];
    ConcatOne(pieces[piece]);
  }

  lemma ConcatOne(s: string)
    ensures Concat([s]) == s
  {
    assert [s][1..] == [];
  }

  /** What is submitted from a cursor is what lies behind it. */
  lemma {:induction false} TailIsSuffix(pieces: seq<string>, piece: nat, offset: nat)
    requires piece < |pieces| && offset <= |pieces[piece]|
    ensures Position(pieces, piece, offset) <= |Concat(pieces)|
    ensures Concat([pieces[piece][offset..]] + pieces[piece + 1..])
            == Concat(pieces)[Position(pieces, piece, offset)..]
  {
    hide Concat;
    CursorStep(pieces, piece);
    ConcatAppend([pieces[piece][offset..]], pieces[piece + 1..]);
    ConcatOne(pieces[piece][offset..]);
  }

  /** Move the cursor over `n` octets that were taken. It ends past the last
      piece exactly when those octets were the last and the last piece had some. */
  method AdvanceCursor(pieces: seq<string>, piece: nat, offset: nat, n: nat)
      returns (piece': nat, offset': nat)
    requires piece < |pieces| && AtCursor(pieces, piece, offset)
    requires n <= |Concat(pieces)| - Position(pieces, piece, offset)
    ensures AtCursor(pieces, piece', offset')
    ensures Position(pieces, piece', offset') == Position(pieces, piece, offset) + n
    ensures piece' == |pieces| ==> pieces[|pieces| - 1] != ""
  {
    hide Concat;
    piece', offset' := piece, offset;
    var remaining := n;
    while remaining > 0 && piece' < |pieces|
      invariant AtCursor(pieces, piece', offset') && remaining >= 0
      invariant Position(pieces, piece', offset') + remaining == Position(pieces, piece, offset) + n
      invariant piece' == |pieces| ==> pieces[|pieces| - 1] != ""
      decreases |pieces| - piece', remaining
    {
      CursorStep(pieces, piece');
      var available := |pieces[piece']| - offset';
      if remaining < available {
        offset' := offset' + remaining;
        remaining := 0;
      } else {
        LastPieceHolds(pieces, piece', offset', remaining);
        remaining := remaining - available;
        piece' := piece' + 1;
        offset' := 0;
      }
    }
    assert pieces[..|pieces|] == pieces;
    assert Position(pieces, |pieces|, 0) == |Concat(pieces)|;
  }

  /** Octets left at the last piece are in the last piece. */
  lemma {:induction false} LastPieceHolds(pieces: seq<string>, piece: nat, offset: nat, remaining: nat)
    requires piece < |pieces| && AtCursor(pieces, piece, offset) && remaining > 0
    requires Position(pieces, piece, offset) + remaining <= |Concat(pieces)|
    ensures piece == |pieces| - 1 ==> pieces[piece] != ""
  {
    CursorStep(pieces, piece);
    if piece == |pieces| - 1 {
      assert pieces[piece + 1..] == [];
    }
  }

  /** Write every octet of every piece. Over a peer that keeps reading, all of
      them arrive; but the loop also reports success exactly when there was
      nothing to write or the last piece is not empty. */
  method WritevAll(stream: WriteStream, pieces: seq<string>) returns (r: Result<()>)
    modifies stream
    ensures old(stream.written) <= stream.written <= old(stream.written) + Concat(pieces)
    ensures r.Ok? ==> stream.written == old(stream.written) + Concat(pieces)
    ensures stream.Generous() ==> stream.written == old(stream.written) + Concat(pieces)
    ensures stream.Generous() ==>
              (r.Ok? <==> Concat(pieces) == "" || pieces[|pieces| - 1] != "")
  {
    hide Concat;
    if Concat(pieces) == "" {
      return Ok(());
    }
    ghost var text := Concat(pieces);
    EmptyPosition(pieces);
    var piece: nat, offset: nat := 0, 0;
    while piece < |pieces|
      invariant AtCursor(pieces, piece, offset)
      invariant Position(pieces, piece, offset) <= |text|
      invariant stream.written == old(stream.written) + text[..Position(pieces, piece, offset)]
      invariant piece == |pieces| ==> pieces[|pieces| - 1] != ""
      decreases |text| - Position(pieces, piece, offset)
    {
      ghost var at := Position(pieces, piece, offset);
      TailIsSuffix(pieces, piece, offset);
      var tail := [pieces[piece][offset..]] + pieces[piece + 1..];
      var n := stream.WritevSome(tail);
      if n.Err? {
        return Err(n.error);
      }
      if n.value == 0 {
        if stream.Generous() {
          assert at == |text|;
          NothingLeft(pieces, piece, offset);
          assert text[..|text|] == text;
        }
        return Err(Eof);
      }
      assert text[..at] + text[at..][..n.value] == text[..at + n.value];
      piece, offset := AdvanceCursor(pieces, piece, offset, n.value);
    }
    assert pieces[..|pieces|] == pieces;
    assert text[..|text|] == text;
    r := Ok(());
  }

  /** A cursor short of the end with nothing behind it stands at empty pieces. */
  lemma {:induction false} NothingLeft(pieces: seq<string>, piece: nat, offset: nat)
    requires piece < |pieces| && AtCursor(pieces, piece, offset)
    requires Position(pieces, piece, offset) == |Concat(pieces)|
    ensures pieces[|pieces| - 1] == ""
    decreases |pieces| - piece
  {
    hide Concat;
    CursorStep(pieces, piece);
    if piece + 1 < |pieces| {
      NothingLeft(pieces, piece + 1, 0);
    }
  }

  lemma {:induction false} EmptyPosition(pieces: seq<string>)
    requires Concat(pieces) != ""
    ensures pieces != [] && Position(pieces, 0, 0) == 0
  {
  }
}
