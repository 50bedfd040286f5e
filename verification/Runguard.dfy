/**
 The watchdog part of runguard: counters per stream, the copy loop while the child runs, the drain
 loop after it exited, and the report of truncated streams.
 */
module Runguard {
  import opened Numbers
  import opened Wrappers
  import opened RunguardStreams

  class Watchdog {
    const limit: Option<nat>
    const dataRead: array<nat>
    const dataPassed: array<nat>
    const stream: array<Stream>  // what the kernel holds of each stream; indices 1 and 2
    var useSplice: bool

    ghost predicate Valid()
      reads this, dataRead, dataPassed, stream
    {
      && dataRead.Length == dataPassed.Length == stream.Length == 3 && dataRead != dataPassed
      && Prefixes(State(), limit)
      && dataRead[1] == |stream[1].consumed| && dataPassed[1] == |stream[1].saved|
      && dataRead[2] == |stream[2].consumed| && dataPassed[2] == |stream[2].saved|
    }

    ghost function State(): Streams
      requires stream.Length == 3
      reads this, stream
    {
      Streams(stream[1], stream[2], useSplice)
    }

    constructor (limit: Option<nat>, spliceOut: bool, spliceErr: bool)
      ensures Valid() && fresh(dataRead) && fresh(dataPassed) && fresh(stream) && this.limit == limit
      ensures State() == Streams(Stream("", true, true, spliceOut, "", ""), Stream("", true, true, spliceErr, "", ""),
                true)
    {
      this.limit, useSplice := limit, true;
      dataRead := new nat[3](_ => 0);
      dataPassed := new nat[3](_ => 0);
      stream := new Stream[3](i => Stream("", true, true, if i == 1 then spliceOut else spliceErr, "", ""));
    }

    /** One pass over stream i; size is what the system would like to return. */
    method PumpStream(i: nat, ready: bool, size: nat)
      requires Valid() && 1 <= i <= 2
      modifies this, dataRead, dataPassed, stream
      ensures Valid()
      ensures (stream[i], useSplice) == PumpIf(ready, old(stream[i]), old(useSplice), limit, size)
      ensures stream[3 - i] == old(stream[3 - i])
      ensures old(stream[i].open) ==>
                (!stream[i].open <==> ready && old(AtEnd(stream[i]) && !SpliceFails(stream[i], useSplice, limit)))
    {
      var s := stream[i];
      PumpOneKeepsPrefix(s, useSplice, limit, size);
      PumpCloses(s, useSplice, limit, ready, size);
      if !s.open || !ready {
        return;
      }
      var nread := CopyOrDiscard(i, size);
      if nread == -1 {
        return;
      }
      if nread == 0 {
        stream[i] := stream[i].(open := false);
        return;
      }
      dataRead[i] := dataRead[i] + nread;
    }

    /** Copies what is available on stream i, or throws it away at the limit; counts what was copied. */
    method CopyOrDiscard(i: nat, size: nat) returns (nread: int)
      requires Valid() && 1 <= i <= 2
      modifies this, dataPassed, stream
      ensures forall k :: 0 <= k < 3 && k != i ==> stream[k] == old(stream[k]) && dataPassed[k] == old(dataPassed[k])
      ensures var s := old(stream[i]);
              var fails := !AtLimit(s, limit) && old(useSplice) && !s.spliceable;
              var n := Got(s, Ask(s, limit), size);
              && useSplice == (old(useSplice) && !fails)
              && nread == (if fails then -1 else if n > 0 then n else if s.writerOpen then -1 else 0)
              && stream[i] == (if fails || n == 0 then s
                               else s.(pipe := s.pipe[n..], consumed := s.consumed + s.pipe[..n],
                                       saved := if AtLimit(s, limit) then s.saved else s.saved + s.pipe[..n]))
              && dataPassed[i] == |stream[i].saved|
    {
      var s := stream[i];
      if limit.Some? && dataPassed[i] == limit.value {
        // Throw away data at the output limit, but count how much was consumed.
        nread := Receive(i, BUF_SIZE, false, size);
      } else {
        var toRead := BUF_SIZE;
        if limit.Some? {
          toRead := Min(BUF_SIZE, limit.value - dataPassed[i]);
        }
        if useSplice && !s.spliceable {
          useSplice := false;
          return -1;
        }
        nread := Receive(i, toRead, true, size);
        if nread > 0 {
          dataPassed[i] := dataPassed[i] + nread;
        }
      }
    }

    /** A read or splice of at most ask bytes: -1 if it would block, 0 at end of file. */
    method Receive(i: nat, ask: nat, copy: bool, size: nat) returns (nread: int)
      requires stream.Length == 3 && 1 <= i <= 2 && 0 < ask
      modifies stream
      ensures forall k :: 0 <= k < 3 && k != i ==> stream[k] == old(stream[k])
      ensures var s := old(stream[i]); var n := Got(s, ask, size);
              && nread == (if n > 0 then n else if s.writerOpen then -1 else 0)
              && stream[i] == if n == 0 then s
                              else s.(pipe := s.pipe[n..], consumed := s.consumed + s.pipe[..n],
                                      saved := if copy then s.saved + s.pipe[..n] else s.saved)
    {
      var s := stream[i];
      var n := Got(s, ask, size);
      if n == 0 {
        return if s.writerOpen then -1 else 0;
      }
      var chunk := s.pipe[..n];
      stream[i] := s.(pipe := s.pipe[n..], consumed := s.consumed + chunk,
          saved := if copy then s.saved + chunk else s.saved);
      return n;
    }

    method PumpPipes(ready1: bool, ready2: bool, size1: nat, size2: nat)
      requires Valid()
      modifies this, dataRead, dataPassed, stream
      ensures Valid() && State() == Pump(old(State()), limit, ready1, ready2, size1, size2)
      ensures (ready1 && old(Readable(stream[1]))) || (ready2 && old(Readable(stream[2]))) ==>
                ToDo(State()) < old(ToDo(State()))
    {
      PumpGetsOn(State(), limit, ready1, ready2, size1, size2);
      PumpStream(1, ready1, size1);
      PumpStream(2, ready2, size2);
    }

    /** The loop while the child runs: it writes and closes, and what select reports is pumped. */
    method Watch(actions: seq<Action>)
      requires Valid()
      modifies this, dataRead, dataPassed, stream
      ensures Valid() && State() == Run(old(State()), limit, actions)
    {
      var k := 0;
      while k < |actions|
        invariant 0 <= k <= |actions| && Valid()
        invariant Run(State(), limit, actions[k..]) == Run(old(State()), limit, actions)
      {
        assert actions[k..][1..] == actions[k + 1..];
        NextKeepsPrefixes(State(), limit, actions[k]);
        Observe(actions[k]);
        k := k + 1;
      }
    }

    method Observe(a: Action)
      requires Valid()
      modifies this, dataRead, dataPassed, stream
      ensures Valid() && State() == Next(old(State()), limit, a)
    {
      match a
      case Pumping(ready1, ready2, size1, size2) => PumpPipes(ready1, ready2, size1, size2);
      case WriteOut(data) =>
        if stream[1].writerOpen {
          stream[1] := stream[1].(pipe := stream[1].pipe + data);
        }
      case WriteErr(data) =>
        if stream[2].writerOpen {
          stream[2] := stream[2].(pipe := stream[2].pipe + data);
        }
      case CloseOut => stream[1] := stream[1].(writerOpen := false);
      case CloseErr => stream[2] := stream[2].(writerOpen := false);
    }

    /**
     The drain after the child exited: pump until a pass copies nothing. Everything written is saved,
     up to the limit, exactly if the drain does not stop early; the counters then tell which streams
     exceeded the limit.
     */
    method Drain()
      requires Valid()
      modifies this, dataRead, dataPassed, stream
      ensures Valid()
      ensures Written(stream[1]) == old(Written(stream[1])) && Written(stream[2]) == old(Written(stream[2]))
      ensures Complete(stream[1], limit) && Complete(stream[2], limit) <==> !old(StopsEarly(State(), limit))
      ensures !old(StopsEarly(State(), limit)) ==>
                && (dataPassed[1] < dataRead[1] <==> Exceeded(stream[1], limit))
                && (dataPassed[2] < dataRead[2] <==> Exceeded(stream[2], limit))
    {
      ghost var early := StopsEarly(State(), limit);
      ghost var first := true;
      ghost var before := State();
      var more := true;
      while more
        invariant Valid() && Prefixes(before, limit)
        invariant Written(stream[1]) == old(Written(stream[1])) && Written(stream[2]) == old(Written(stream[2]))
        invariant first ==> more && State() == old(State())
        invariant !first && more ==> !early && Settled(State(), limit)
        invariant !more ==> (early <==> Pending(stream[1], limit) || Pending(stream[2], limit))
        invariant !more && !early ==>
                    && (|stream[1].saved| < |stream[1].consumed| <==> Exceeded(stream[1], limit))
                    && (|stream[2].saved| < |stream[2].consumed| <==> Exceeded(stream[2], limit))
        decreases more, |stream[1].pipe| + |stream[2].pipe|
      {
        before := State();
        var totalData := dataPassed[1] + dataPassed[2];
        var size1: nat, size2: nat := *, *;
        DrainPassProgress(State(), limit, size1, size2);
        PumpKeepsPrefixes(State(), limit, true, true, size1, size2);
        PumpPipes(true, true, size1, size2);
        more := dataPassed[1] + dataPassed[2] > totalData;
        assert Saved(State()) == dataPassed[1] + dataPassed[2] && Saved(before) == totalData;
        if !more && !Pending(stream[1], limit) && !Pending(stream[2], limit) {
          LastPassNotices(before, limit, size1, size2);
        }
        first := false;
      }
      CompleteIffNotPending(stream[1], limit);
      CompleteIffNotPending(stream[2], limit);
    }

    /** The value of `output-truncated`. */
    method OutputTruncated() returns (str: string)
      requires Valid()
      ensures str == (if dataPassed[1] < dataRead[1] then "stdout" else "")
                   + (if dataPassed[1] < dataRead[1] && dataPassed[2] < dataRead[2] then "," else "")
                   + (if dataPassed[2] < dataRead[2] then "stderr" else "")
    {
      str := "";
      if dataPassed[1] < dataRead[1] {
        str := str + "stdout";
      }
      if dataPassed[2] < dataRead[2] {
        if str != "" {
          str := str + ",";
        }
        str := str + "stderr";
      }
    }
  }

  /** Reporting after a drain that does not stop early names exactly the streams beyond the limit. */
  method DrainAndReport(w: Watchdog) returns (str: string)
    requires w.Valid() && !StopsEarly(w.State(), w.limit)
    modifies w, w.dataRead, w.dataPassed, w.stream
    ensures w.Valid()
    ensures w.stream[1].saved == old(Written(w.stream[1]))[..Bounded(|old(Written(w.stream[1]))|, w.limit)]
    ensures w.stream[2].saved == old(Written(w.stream[2]))[..Bounded(|old(Written(w.stream[2]))|, w.limit)]
    ensures var out, err := Exceeded(old(w.stream[1]), w.limit), Exceeded(old(w.stream[2]), w.limit);
            str == (if out && err then "stdout,stderr" else if out then "stdout" else if err then "stderr" else "")
  {
    w.Drain();
    str := w.OutputTruncated();
  }

  /** Splice settled before the drain, or working for both files, is enough. */
  lemma SettledNeverStopsEarly(w: Streams, limit: Option<nat>)
    requires Settled(w, limit)
    ensures !StopsEarly(w, limit)
  {
  }

  /** Output that arrives just before the child exits is lost if splice turns out not to work only then. */
  lemma LateSpliceFailureLosesOutput()
    ensures var w := Streams(Stream("x", false, true, false, "", ""), Stream("", false, true, true, "", ""), true);
            && Prefixes(w, None) && StopsEarly(w, None)
            && Saved(DrainPass(w, None, 1, 1)) == Saved(w) && !Complete(DrainPass(w, None, 1, 1).out, None)
  {
    var w := Streams(Stream("x", false, true, false, "", ""), Stream("", false, true, true, "", ""), true);
    assert DrainPass(w, None, 1, 1).out == w.out;
    CompleteIffNotPending(w.out, None);
  }
}
