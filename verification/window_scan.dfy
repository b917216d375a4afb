/** Scanning an unbounded byte stream for windows of fixed width, piece by piece: what has been decided
    about a position never depends on bytes that arrive later. */
module WindowScan {
  import opened TransportStream
  import opened GreedyScan

  /** The verdict for every position at which a whole window lies in the stream. */
  function Verdicts(stream: seq<Byte>, width: nat, accept: seq<Byte> -> bool): (ok: seq<bool>)
    requires 0 < width
    ensures |ok| == if |stream| < width then 0 else |stream| - width + 1
    ensures forall at :: 0 <= at < |ok| ==> ok[at] == accept(stream[at..at + width])
  {
    if |stream| < width then []
    else seq(|stream| - width + 1, at requires 0 <= at <= |stream| - width => accept(stream[at..at + width]))
  }

  function WindowStarts(stream: seq<Byte>, width: nat, accept: seq<Byte> -> bool, at: nat): seq<nat>
    requires 0 < width
  {
    Starts(Verdicts(stream, width, accept), width, at)
  }

  predicate NeedsSync(accept: seq<Byte> -> bool, window: seq<Byte>) {
    accept(window) ==> window != [] && window[0] == SYNC_BYTE
  }

  /** Whatever arrives after `stream`, the scan of everything is `starts` and then the scan from
      `position` on. */
  ghost predicate Settled(stream: seq<Byte>, width: nat, accept: seq<Byte> -> bool, position: nat, starts: seq<nat>)
    requires 0 < width
  {
    forall more: seq<Byte> ::
      WindowStarts(stream + more, width, accept, 0) == starts + WindowStarts(stream + more, width, accept, position)
  }

  lemma {:induction false} SettledAlways(stream: seq<Byte>, more: seq<Byte>, width: nat, accept: seq<Byte> -> bool,
                                         position: nat, starts: seq<nat>)
    requires 0 < width && Settled(stream, width, accept, position, starts)
    ensures WindowStarts(stream + more, width, accept, 0)
      == starts + WindowStarts(stream + more, width, accept, position)
  {
  }

  lemma {:induction false} NothingSettled(width: nat, accept: seq<Byte> -> bool)
    requires 0 < width
    ensures Settled([], width, accept, 0, [])
  {
    forall more: seq<Byte>
      ensures WindowStarts([] + more, width, accept, 0) == [] + WindowStarts([] + more, width, accept, 0)
    {
    }
  }

  lemma {:induction false} MoreBytes(stream: seq<Byte>, data: seq<Byte>, width: nat, accept: seq<Byte> -> bool,
                                     position: nat, starts: seq<nat>)
    requires 0 < width && Settled(stream, width, accept, position, starts)
    ensures Settled(stream + data, width, accept, position, starts)
  {
    hide WindowStarts;
    forall more: seq<Byte>
      ensures WindowStarts(stream + data + more, width, accept, 0)
           == starts + WindowStarts(stream + data + more, width, accept, position)
    {
      assert stream + data + more == stream + (data + more);
    }
  }

  /** A byte that is not a sync byte starts no window, now or later. */
  lemma {:induction false} SkipByte(stream: seq<Byte>, width: nat, accept: seq<Byte> -> bool, position: nat,
                                    starts: seq<nat>)
    requires 0 < width && Settled(stream, width, accept, position, starts)
    requires forall window :: NeedsSync(accept, window)
    requires position < |stream| && stream[position] != SYNC_BYTE
    ensures Settled(stream, width, accept, position + 1, starts)
  {
    forall more: seq<Byte>
      ensures WindowStarts(stream + more, width, accept, 0)
           == starts + WindowStarts(stream + more, width, accept, position + 1)
    {
      var all := stream + more;
      if position + width <= |all| {
        assert NeedsSync(accept, all[position..position + width]);
      }
      assert WindowStarts(all, width, accept, position) == WindowStarts(all, width, accept, position + 1);
    }
  }

  /** A whole window is decided for good: taken, or not. */
  lemma {:induction false} TakeWindow(stream: seq<Byte>, width: nat, accept: seq<Byte> -> bool, position: nat,
                                      starts: seq<nat>)
    requires 0 < width && Settled(stream, width, accept, position, starts)
    requires position + width <= |stream| && accept(stream[position..position + width])
    ensures Settled(stream, width, accept, position + width, starts + [position])
  {
    forall more: seq<Byte>
      ensures WindowStarts(stream + more, width, accept, 0)
           == (starts + [position]) + WindowStarts(stream + more, width, accept, position + width)
    {
      var all := stream + more;
      assert all[position..position + width] == stream[position..position + width];
      var rest := WindowStarts(all, width, accept, position + width);
      assert WindowStarts(all, width, accept, position) == [position] + rest;
      assert starts + ([position] + rest) == (starts + [position]) + rest;
    }
  }

  lemma {:induction false} RejectWindow(stream: seq<Byte>, width: nat, accept: seq<Byte> -> bool, position: nat,
                                        starts: seq<nat>)
    requires 0 < width && Settled(stream, width, accept, position, starts)
    requires position + width <= |stream| && !accept(stream[position..position + width])
    ensures Settled(stream, width, accept, position + 1, starts)
  {
    forall more: seq<Byte>
      ensures WindowStarts(stream + more, width, accept, 0)
           == starts + WindowStarts(stream + more, width, accept, position + 1)
    {
      var all := stream + more;
      assert all[position..position + width] == stream[position..position + width];
      assert WindowStarts(all, width, accept, position) == WindowStarts(all, width, accept, position + 1);
    }
  }

  /** When less than a window is left, the windows found are the greedy leftmost ones of the stream. */
  lemma {:induction false} ScanIsComplete(stream: seq<Byte>, width: nat, accept: seq<Byte> -> bool, position: nat,
                                          starts: seq<nat>)
    requires 0 < width && Settled(stream, width, accept, position, starts)
    requires |stream| < position + width
    ensures starts == WindowStarts(stream, width, accept, 0)
    ensures Greedy(Verdicts(stream, width, accept), width, 0, starts)
  {
    assert stream + [] == stream;
    assert WindowStarts(stream + [], width, accept, position) == [];
    StartsIffGreedy(Verdicts(stream, width, accept), width, 0, starts);
  }
}
