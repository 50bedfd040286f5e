/**
 runguard copies the output and error streams of its child to files. Each copy is bounded; what
 exceeds the bound is read and thrown away.
 */
module RunguardStreams {
  import opened Numbers
  import opened Wrappers

  const BUF_SIZE: nat := 4 * 1024

  /**
   One stream. pipe: written by the child and not yet read. writerOpen: somebody may still write.
   open: runguard still reads. spliceable: splice works towards this output file.
   consumed: everything read so far. saved: what was copied to the file.
   */
  datatype Stream = Stream(pipe: string, writerOpen: bool, open: bool, spliceable: bool, consumed: string,
      saved: string)

  /** Both streams and whether splice is still being tried. */
  datatype Streams = Streams(out: Stream, err: Stream, useSplice: bool)

  function Written(s: Stream): string {
    s.consumed + s.pipe
  }

  function Bounded(n: nat, limit: Option<nat>): nat {
    if limit.Some? then Min(n, limit.value) else n
  }

  predicate AtLimit(s: Stream, limit: Option<nat>) {
    limit == Some(|s.saved|)
  }

  /** Exactly the first bytes read were copied, up to the limit; a closed stream was read to its end. */
  ghost predicate Prefix(s: Stream, limit: Option<nat>) {
    && s.saved == s.consumed[..Bounded(|s.consumed|, limit)]
    && (!s.open ==> s.pipe == "" && !s.writerOpen)
  }

  /** How many bytes are asked for: never none. */
  function Ask(s: Stream, limit: Option<nat>): (n: nat)
    requires Prefix(s, limit)
    ensures 0 < n <= BUF_SIZE
    ensures limit.Some? && !AtLimit(s, limit) ==> |s.saved| + n <= limit.value
  {
    if AtLimit(s, limit) || limit == None then BUF_SIZE else Min(BUF_SIZE, limit.value - |s.saved|)
  }

  /** How many bytes a read or splice returns when size is what the system would like to give. */
  function Got(s: Stream, ask: nat, size: nat): (n: nat)
    requires 0 < ask
    ensures n <= |s.pipe| && n <= ask && (n == 0 <==> s.pipe == "")
  {
    if s.pipe == "" then 0 else if size == 0 then 1 else Min(size, Min(ask, |s.pipe|))
  }

  /** The pass over one stream that select reported as readable. */
  function PumpOne(s: Stream, useSplice: bool, limit: Option<nat>, size: nat): (Stream, bool)
    requires Prefix(s, limit)
  {
    var n := Got(s, Ask(s, limit), size);
    if !AtLimit(s, limit) && useSplice && !s.spliceable then (s, false)
    else if n == 0 then (if s.writerOpen then s else s.(open := false), useSplice)
    else
      (s.(pipe := s.pipe[n..], consumed := s.consumed + s.pipe[..n],
          saved := if AtLimit(s, limit) then s.saved else s.saved + s.pipe[..n]), useSplice)
  }

  function PumpIf(ready: bool, s: Stream, useSplice: bool, limit: Option<nat>, size: nat): (Stream, bool)
    requires Prefix(s, limit)
  {
    if s.open && ready then PumpOne(s, useSplice, limit, size) else (s, useSplice)
  }

  lemma PumpOneKeepsPrefix(s: Stream, useSplice: bool, limit: Option<nat>, size: nat)
    requires Prefix(s, limit)
    ensures Prefix(PumpOne(s, useSplice, limit, size).0, limit)
    ensures Written(PumpOne(s, useSplice, limit, size).0) == Written(s)
  {
    var n := Got(s, Ask(s, limit), size);
    assert s.pipe == s.pipe[..n] + s.pipe[n..];
    assert s.consumed + (s.pipe[..n] + s.pipe[n..]) == (s.consumed + s.pipe[..n]) + s.pipe[n..];
    if n > 0 {
      var c := s.consumed + s.pipe[..n];
      if AtLimit(s, limit) {
        assert c[..|s.saved|] == s.consumed[..|s.saved|];
      } else {
        assert s.saved == s.consumed;
        assert c[..|c|] == c;
      }
    }
  }

  function Pump(w: Streams, limit: Option<nat>, ready1: bool, ready2: bool, size1: nat, size2: nat): Streams
    requires Prefix(w.out, limit) && Prefix(w.err, limit)
  {
    var (out, splice1) := PumpIf(ready1, w.out, w.useSplice, limit, size1);
    var (err, splice2) := PumpIf(ready2, w.err, splice1, limit, size2);
    Streams(out, err, splice2)
  }

  ghost predicate Prefixes(w: Streams, limit: Option<nat>) {
    Prefix(w.out, limit) && Prefix(w.err, limit)
  }

  lemma PumpKeepsPrefixes(w: Streams, limit: Option<nat>, ready1: bool, ready2: bool, size1: nat, size2: nat)
    requires Prefixes(w, limit)
    ensures var w' := Pump(w, limit, ready1, ready2, size1, size2);
            Prefixes(w', limit) && Written(w'.out) == Written(w.out) && Written(w'.err) == Written(w.err)
  {
    PumpOneKeepsPrefix(w.out, w.useSplice, limit, size1);
    PumpOneKeepsPrefix(w.err, PumpIf(ready1, w.out, w.useSplice, limit, size1).1, limit, size2);
  }

  // ----- runs: the child writes and closes, runguard pumps

  datatype Action =
    | WriteOut(data: string)
    | WriteErr(data: string)
    | CloseOut
    | CloseErr
    | Pumping(ready1: bool, ready2: bool, size1: nat, size2: nat)

  function Next(w: Streams, limit: Option<nat>, a: Action): Streams
    requires Prefixes(w, limit)
  {
    match a
    case WriteOut(data) => if w.out.writerOpen then w.(out := w.out.(pipe := w.out.pipe + data)) else w
    case WriteErr(data) => if w.err.writerOpen then w.(err := w.err.(pipe := w.err.pipe + data)) else w
    case CloseOut => w.(out := w.out.(writerOpen := false))
    case CloseErr => w.(err := w.err.(writerOpen := false))
    case Pumping(ready1, ready2, size1, size2) => Pump(w, limit, ready1, ready2, size1, size2)
  }

  lemma NextKeepsPrefixes(w: Streams, limit: Option<nat>, a: Action)
    requires Prefixes(w, limit)
    ensures Prefixes(Next(w, limit, a), limit)
    ensures Written(w.out) <= Written(Next(w, limit, a).out) && Written(w.err) <= Written(Next(w, limit, a).err)
  {
    match a
    case Pumping(ready1, ready2, size1, size2) => PumpKeepsPrefixes(w, limit, ready1, ready2, size1, size2);
    case WriteOut(data) => assert w.out.consumed + (w.out.pipe + data) == Written(w.out) + data;
    case WriteErr(data) => assert w.err.consumed + (w.err.pipe + data) == Written(w.err) + data;
    case _ =>
  }

  /** What the child does: it writes to a stream until it closes it, and the other stream is not touched. */
  lemma ChildActs(w: Streams, limit: Option<nat>, data: string)
    requires Prefixes(w, limit)
    ensures var w' := Next(w, limit, WriteOut(data));
            && Written(w'.out) == Written(w.out) + (if w.out.writerOpen then data else "") && w'.err == w.err
            && w'.out.writerOpen == w.out.writerOpen && w'.out.saved == w.out.saved
    ensures var w' := Next(w, limit, WriteErr(data));
            && Written(w'.err) == Written(w.err) + (if w.err.writerOpen then data else "") && w'.out == w.out
            && w'.err.writerOpen == w.err.writerOpen && w'.err.saved == w.err.saved
    ensures !Next(w, limit, CloseOut).out.writerOpen && Written(Next(w, limit, CloseOut).out) == Written(w.out)
    ensures !Next(w, limit, CloseErr).err.writerOpen && Written(Next(w, limit, CloseErr).err) == Written(w.err)
  {
    assert w.out.consumed + (w.out.pipe + data) == Written(w.out) + data;
    assert w.err.consumed + (w.err.pipe + data) == Written(w.err) + data;
  }

  function Run(w: Streams, limit: Option<nat>, actions: seq<Action>): (r: Streams)
    requires Prefixes(w, limit)
    ensures Prefixes(r, limit)
    decreases |actions|
  {
    if actions == [] then w
    else
      NextKeepsPrefixes(w, limit, actions[0]);
      Run(Next(w, limit, actions[0]), limit, actions[1..])
  }

  /** The counters after any run: what is saved is the prefix of the stream bounded by limit and amount read. */
  lemma CountersAfterRun(w: Streams, limit: Option<nat>, actions: seq<Action>)
    requires Prefixes(w, limit)
    ensures var r := Run(w, limit, actions);
            && |r.out.saved| == Bounded(|r.out.consumed|, limit) && r.out.saved <= Written(r.out)
            && |r.err.saved| == Bounded(|r.err.consumed|, limit) && r.err.saved <= Written(r.err)
  {
  }

  // ----- the final drain

  /** A stream that would still be copied, and one that has something to copy. */
  predicate Wants(s: Stream, limit: Option<nat>) {
    s.open && !AtLimit(s, limit)
  }

  predicate Pending(s: Stream, limit: Option<nat>) {
    Wants(s, limit) && s.pipe != ""
  }

  predicate SpliceFails(s: Stream, useSplice: bool, limit: Option<nat>) {
    useSplice && Wants(s, limit) && !s.spliceable
  }

  /** The whole stream is saved, up to the limit. */
  ghost predicate Complete(s: Stream, limit: Option<nat>) {
    s.saved == Written(s)[..Bounded(|Written(s)|, limit)]
  }

  lemma CompleteIffNotPending(s: Stream, limit: Option<nat>)
    requires Prefix(s, limit)
    ensures Complete(s, limit) <==> !Pending(s, limit)
  {
    var w := Written(s);
    if Pending(s, limit) {
      assert |s.saved| < Bounded(|w|, limit);
    } else if AtLimit(s, limit) {
      assert Bounded(|w|, limit) == |s.saved|;
      assert w[..|s.saved|] == s.consumed[..|s.saved|];
    } else {
      assert s.pipe == "" && w == s.consumed;
    }
  }

  function Saved(w: Streams): nat {
    |w.out.saved| + |w.err.saved|
  }

  /**
   The first pass only finds out that splice does not work for a stream that has something to copy,
   and copies nothing else: the drain loop then takes the lack of progress for the end.
   */
  predicate StopsEarly(w: Streams, limit: Option<nat>) {
    var out := SpliceFails(w.out, w.useSplice, limit);
    var err := SpliceFails(w.err, w.useSplice && !out, limit);
    && ((out && w.out.pipe != "") || (err && w.err.pipe != ""))
    && !(Pending(w.out, limit) && !out)
    && !(Pending(w.err, limit) && !err)
  }

  /** Splice will not fail any more. */
  predicate Settled(w: Streams, limit: Option<nat>) {
    !SpliceFails(w.out, w.useSplice, limit) && !SpliceFails(w.err, w.useSplice, limit)
  }

  function DrainPass(w: Streams, limit: Option<nat>, size1: nat, size2: nat): Streams
    requires Prefixes(w, limit)
  {
    Pump(w, limit, true, true, size1, size2)
  }

  /** What one pass of the drain loop does to one stream. */
  lemma PumpProgress(s: Stream, useSplice: bool, limit: Option<nat>, size: nat)
    requires Prefix(s, limit)
    ensures var (s', splice') := PumpIf(true, s, useSplice, limit, size);
            var fails := SpliceFails(s, useSplice, limit);
            && |s.saved| <= |s'.saved| && |s'.pipe| <= |s.pipe|
            && (|s.saved| < |s'.saved| <==> Pending(s, limit) && !fails)
            && (|s.saved| < |s'.saved| ==> |s'.pipe| < |s.pipe|)
            && (|s.saved| == |s'.saved| ==> (Pending(s', limit) <==> Pending(s, limit)))
            && splice' == (useSplice && !fails)
            && (Wants(s', limit) ==> Wants(s, limit)) && s'.spliceable == s.spliceable
            && (s.open && AtLimit(s, limit) && s.pipe != "" ==> |s'.consumed| > |s'.saved|)
            && (|s.consumed| > |s.saved| ==> |s'.consumed| > |s'.saved|)
  {
    PumpOneKeepsPrefix(s, useSplice, limit, size);
  }

  lemma DrainPassProgress(w: Streams, limit: Option<nat>, size1: nat, size2: nat)
    requires Prefixes(w, limit)
    ensures var w' := DrainPass(w, limit, size1, size2);
            && Settled(w', limit)
            && Saved(w) <= Saved(w')
            && (Saved(w) < Saved(w') ==> |w'.out.pipe| + |w'.err.pipe| < |w.out.pipe| + |w.err.pipe|)
            && (Settled(w, limit) && Saved(w') == Saved(w) ==> !Pending(w'.out, limit) && !Pending(w'.err, limit))
            && (Saved(w') == Saved(w) ==> (StopsEarly(w, limit) <==> Pending(w'.out, limit) || Pending(w'.err, limit)))
            && (Saved(w') > Saved(w) ==> !StopsEarly(w, limit))
  {
    PumpProgress(w.out, w.useSplice, limit, size1);
    var splice1 := PumpIf(true, w.out, w.useSplice, limit, size1).1;
    PumpProgress(w.err, splice1, limit, size2);
  }

  /** A stream that exceeded the limit. */
  predicate Exceeded(s: Stream, limit: Option<nat>) {
    limit.Some? && |Written(s)| > limit.value
  }

  /** A pass that copies nothing and leaves nothing to copy has noticed every stream beyond its limit. */
  lemma LastPassNotices(w: Streams, limit: Option<nat>, size1: nat, size2: nat)
    requires Prefixes(w, limit)
    requires var w' := DrainPass(w, limit, size1, size2);
             Saved(w') == Saved(w) && !Pending(w'.out, limit) && !Pending(w'.err, limit)
    ensures var w' := DrainPass(w, limit, size1, size2);
            && (|w'.out.saved| < |w'.out.consumed| <==> Exceeded(w'.out, limit))
            && (|w'.err.saved| < |w'.err.consumed| <==> Exceeded(w'.err, limit))
  {
    PumpProgress(w.out, w.useSplice, limit, size1);
    var splice1 := PumpIf(true, w.out, w.useSplice, limit, size1).1;
    PumpProgress(w.err, splice1, limit, size2);
    PumpKeepsPrefixes(w, limit, true, true, size1, size2);
    Noticed(w.out, PumpIf(true, w.out, w.useSplice, limit, size1).0, limit);
    Noticed(w.err, PumpIf(true, w.err, splice1, limit, size2).0, limit);
  }

  lemma Noticed(s: Stream, s': Stream, limit: Option<nat>)
    requires Prefix(s, limit) && Prefix(s', limit) && Written(s') == Written(s) && |s'.saved| == |s.saved|
    requires !Pending(s, limit)
    requires s.open && AtLimit(s, limit) && s.pipe != "" ==> |s'.consumed| > |s'.saved|
    requires |s.consumed| > |s.saved| ==> |s'.consumed| > |s'.saved|
    ensures |s'.saved| < |s'.consumed| <==> Exceeded(s', limit)
  {
  }

  // ----- every pass gets on, and a stream is closed at its end

  /** What select waits for: there is something to read, be it the end of the stream. */
  predicate Readable(s: Stream) {
    s.open && (s.pipe != "" || !s.writerOpen)
  }

  predicate AtEnd(s: Stream) {
    s.pipe == "" && !s.writerOpen
  }

  /** What is left to read, and to find out. */
  function ToDo(w: Streams): nat {
    |w.out.pipe| + |w.err.pipe| + (if w.out.open then 1 else 0) + (if w.err.open then 1 else 0)
    + (if w.useSplice then 1 else 0)
  }

  /** A pass over a stream closes it exactly at its end; if it is readable something gets done. */
  lemma PumpCloses(s: Stream, useSplice: bool, limit: Option<nat>, ready: bool, size: nat)
    requires Prefix(s, limit)
    ensures var (s', splice') := PumpIf(ready, s, useSplice, limit, size);
            && (!s'.open <==> !s.open || (ready && AtEnd(s) && !SpliceFails(s, useSplice, limit)))
            && (splice' <==> useSplice && !(ready && SpliceFails(s, useSplice, limit)))
            && s'.writerOpen == s.writerOpen && |s'.pipe| <= |s.pipe|
            && (ready && Readable(s) && s'.open == s.open && splice' == useSplice ==> |s'.pipe| < |s.pipe|)
  {
  }

  /** A pass leaves less to do if select reports a stream that is readable. */
  lemma PumpGetsOn(w: Streams, limit: Option<nat>, ready1: bool, ready2: bool, size1: nat, size2: nat)
    requires Prefixes(w, limit)
    ensures var w' := Pump(w, limit, ready1, ready2, size1, size2);
            && w'.out.writerOpen == w.out.writerOpen && w'.err.writerOpen == w.err.writerOpen
            && ToDo(w') <= ToDo(w)
            && ((ready1 && Readable(w.out)) || (ready2 && Readable(w.err)) ==> ToDo(w') < ToDo(w))
  {
    PumpCloses(w.out, w.useSplice, limit, ready1, size1);
    var splice1 := PumpIf(ready1, w.out, w.useSplice, limit, size1).1;
    PumpCloses(w.err, splice1, limit, ready2, size2);
  }

  ghost predicate FullPasses(actions: seq<Action>) {
    forall a :: a in actions ==> a.Pumping? && a.ready1 && a.ready2
  }

  /** Once nobody can write any more, passes over both streams close them, after at most as many as is left to do. */
  lemma {:induction false} PassesClose(w: Streams, limit: Option<nat>, actions: seq<Action>)
    requires Prefixes(w, limit) && !w.out.writerOpen && !w.err.writerOpen
    requires FullPasses(actions) && (w.out.open || w.err.open ==> |actions| >= ToDo(w))
    ensures !Run(w, limit, actions).out.open && !Run(w, limit, actions).err.open
    ensures Complete(Run(w, limit, actions).out, limit) && Complete(Run(w, limit, actions).err, limit)
    decreases |actions|
  {
    if actions == [] {
      CompleteIffNotPending(w.out, limit);
      CompleteIffNotPending(w.err, limit);
    } else {
      var a := actions[0];
      assert a in actions;
      NextKeepsPrefixes(w, limit, a);
      PumpGetsOn(w, limit, true, true, a.size1, a.size2);
      assert forall b :: b in actions[1..] ==> b in actions;
      PassesClose(Next(w, limit, a), limit, actions[1..]);
    }
  }
}
