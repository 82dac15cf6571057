/** Two readers draining a process's pipes into one byte budget, under every interleaving of their locked appends. */
module BoundedCapture {
  import opened Common

  datatype Stream = Stdout | Stderr

  /** One locked append: a chunk that one reader received. */
  datatype Event = Event(stream: Stream, chunk: seq<byte>)

  // ---- what was delivered ----

  /** All bytes in the order of the appends, each with its stream. */
  function Merged(history: seq<Event>): seq<(Stream, byte)> {
    if history == [] then [] else Merged(history[..|history| - 1]) + Tagged(history[|history| - 1])
  }

  function Tagged(e: Event): (r: seq<(Stream, byte)>)
    ensures |r| == |e.chunk|
  {
    seq(|e.chunk|, k requires 0 <= k < |e.chunk| => (e.stream, e.chunk[k]))
  }

  /** The bytes of one stream. */
  function Only(stream: Stream, bytes: seq<(Stream, byte)>): seq<byte> {
    if bytes == [] then []
    else (if bytes[0].0 == stream then [bytes[0].1] else []) + Only(stream, bytes[1..])
  }

  function Min(a: int, b: int): int { if a < b then a else b }

  /** The first bytes of the merged delivery, as far as the budget goes. */
  function Budgeted(history: seq<Event>, max: nat): seq<(Stream, byte)> {
    Merged(history)[..Min(max, |Merged(history)|)]
  }

  lemma OnlyCons(stream: Stream, first: (Stream, byte), rest: seq<(Stream, byte)>)
    ensures Only(stream, [first] + rest) == (if first.0 == stream then [first.1] else []) + Only(stream, rest)
  {
    assert ([first] + rest)[1..] == rest;
  }

  lemma {:induction false} OnlyConcat(stream: Stream, a: seq<(Stream, byte)>, b: seq<(Stream, byte)>)
    ensures Only(stream, a + b) == Only(stream, a) + Only(stream, b)
  {
    if a == [] {
      assert a + b == b;
    } else {
      OnlyConcat(stream, a[1..], b);
      OnlyCons(stream, a[0], a[1..]);
      OnlyCons(stream, a[0], a[1..] + b);
      ConcatAssociates(if a[0].0 == stream then [a[0].1] else [], Only(stream, a[1..]), Only(stream, b));
      assert a == [a[0]] + a[1..] && a + b == [a[0]] + (a[1..] + b);
    }
  }

  lemma OnlyTagged(stream: Stream, e: Event, n: nat)
    requires n <= |e.chunk|
    ensures Only(stream, Tagged(e)[..n]) == (if e.stream == stream then e.chunk[..n] else [])
  {
    OnlyUniform(stream, e.stream, e.chunk[..n], Tagged(e)[..n]);
  }

  lemma {:induction false} OnlyUniform(stream: Stream, tag: Stream, chunk: seq<byte>, tagged: seq<(Stream, byte)>)
    requires |tagged| == |chunk| && forall k :: 0 <= k < |chunk| ==> tagged[k] == (tag, chunk[k])
    ensures Only(stream, tagged) == if tag == stream then chunk else []
  {
    if chunk != [] {
      OnlyUniform(stream, tag, chunk[1..], tagged[1..]);
      OnlyCons(stream, tagged[0], tagged[1..]);
      assert tagged == [tagged[0]] + tagged[1..] && chunk == [chunk[0]] + chunk[1..];
    }
  }

  lemma {:induction false} OnlyLength(bytes: seq<(Stream, byte)>)
    ensures |Only(Stdout, bytes)| + |Only(Stderr, bytes)| == |bytes|
  {
    if bytes != [] { OnlyLength(bytes[1..]); }
  }

  // ---- the capture ----

  class BoundedOutput {
    const max: nat
    var total: nat
    var stdout: seq<byte>
    var stderr: seq<byte>
    var overflow: bool
    ghost var history: seq<Event>

    /** Each buffer holds exactly its stream's share of the first max bytes delivered. */
    ghost predicate Valid()
      reads this
    {
      && total == |Merged(history)|
      && stdout == Only(Stdout, Budgeted(history, max)) && stderr == Only(Stderr, Budgeted(history, max))
      && (overflow <==> total > max)
    }

    constructor (max: nat)
      ensures Valid() && this.max == max && history == []
    {
      this.max, total, stdout, stderr, overflow, history := max, 0, [], [], false, [];
    }

    method Append(stream: Stream, chunk: seq<byte>)
      requires Valid()
      modifies this
      ensures Valid() && history == old(history) + [Event(stream, chunk)]
    {
      var remaining := max - total;
      if remaining > 0 {
        if stream == Stdout {
          stdout := stdout + chunk[..Min(remaining, |chunk|)];
        } else {
          stderr := stderr + chunk[..Min(remaining, |chunk|)];
        }
      }
      total := total + |chunk|;
      if total > max {
        overflow := true;
      }
      assert stdout == old(stdout) + Share(Stdout, Event(stream, chunk), remaining);
      assert stderr == old(stderr) + Share(Stderr, Event(stream, chunk), remaining);
      AppendBudget(history, Event(stream, chunk), max);
      history := history + [Event(stream, chunk)];
    }
  }

  /** What a stream keeps of a chunk, with so much of the budget left. */
  function Share(stream: Stream, e: Event, remaining: int): seq<byte> {
    if remaining > 0 && e.stream == stream then e.chunk[..Min(remaining, |e.chunk|)] else []
  }

  lemma AppendBudget(history: seq<Event>, e: Event, max: nat)
    ensures |Merged(history + [e])| == |Merged(history)| + |e.chunk|
    ensures forall stream ::
      Only(stream, Budgeted(history + [e], max))
        == Only(stream, Budgeted(history, max)) + Share(stream, e, max - |Merged(history)|)
  {
    MergedNext(history, e);
    forall stream: Stream
      ensures Only(stream, Budgeted(history + [e], max))
           == Only(stream, Budgeted(history, max)) + Share(stream, e, max - |Merged(history)|)
    {
      StreamBudget(history, e, max, stream);
    }
  }

  lemma MergedNext(history: seq<Event>, e: Event)
    ensures Merged(history + [e]) == Merged(history) + Tagged(e)
  {
    assert (history + [e])[..|history|] == history;
  }

  lemma StreamBudget(history: seq<Event>, e: Event, max: nat, stream: Stream)
    ensures Only(stream, Budgeted(history + [e], max))
         == Only(stream, Budgeted(history, max)) + Share(stream, e, max - |Merged(history)|)
  {
    var before := Merged(history);
    MergedNext(history, e);
    if max > |before| {
      var n := Min(max - |before|, |e.chunk|);
      TakeInto(before, Tagged(e), max);
      assert Budgeted(history, max) == before;
      OnlyConcat(stream, before, Tagged(e)[..n]);
      OnlyTagged(stream, e, n);
    } else {
      assert Budgeted(history + [e], max) == Budgeted(history, max);
    }
  }

  lemma TakeInto<T>(a: seq<T>, b: seq<T>, max: nat)
    requires max >= |a|
    ensures (a + b)[..Min(max, |a + b|)] == a + b[..Min(max - |a|, |b|)]
  {}

  // ---- for every run ----

  /** The bytes one reader delivered, in order. */
  function Delivered(stream: Stream, history: seq<Event>): seq<byte> {
    Only(stream, Merged(history))
  }

  /** Whatever the interleaving, the buffers together hold as much as fits, each a prefix of what was delivered. */
  lemma CapturedPrefixes(history: seq<Event>, max: nat)
    ensures var out, err := Only(Stdout, Budgeted(history, max)), Only(Stderr, Budgeted(history, max));
      && |out| + |err| == Min(|Merged(history)|, max)
      && out <= Delivered(Stdout, history) && err <= Delivered(Stderr, history)
  {
    var all := Merged(history);
    var n := Min(max, |all|);
    OnlyLength(all[..n]);
    OnlyConcat(Stdout, all[..n], all[n..]);
    OnlyConcat(Stderr, all[..n], all[n..]);
    assert all == all[..n] + all[n..];
  }

  /** The history is some interleaving of the two readers' chunks. */
  ghost predicate Interleaves(history: seq<Event>, out: seq<seq<byte>>, err: seq<seq<byte>>)
    decreases |history|
  {
    if history == [] then out == [] && err == []
    else
      var rest, last := history[..|history| - 1], history[|history| - 1];
      if last.stream == Stdout then
        out != [] && out[|out| - 1] == last.chunk && Interleaves(rest, out[..|out| - 1], err)
      else err != [] && err[|err| - 1] == last.chunk && Interleaves(rest, out, err[..|err| - 1])
  }

  function Joined(chunks: seq<seq<byte>>): seq<byte> {
    if chunks == [] then [] else Joined(chunks[..|chunks| - 1]) + chunks[|chunks| - 1]
  }

  /** What a reader delivered does not depend on the interleaving. */
  lemma {:induction false} InterleavedDelivery(history: seq<Event>, out: seq<seq<byte>>, err: seq<seq<byte>>)
    requires Interleaves(history, out, err)
    ensures Delivered(Stdout, history) == Joined(out) && Delivered(Stderr, history) == Joined(err)
    decreases |history|
  {
    if history != [] {
      var rest, last := history[..|history| - 1], history[|history| - 1];
      if last.stream == Stdout {
        InterleavedDelivery(rest, out[..|out| - 1], err);
      } else {
        InterleavedDelivery(rest, out, err[..|err| - 1]);
      }
      OnlyConcat(Stdout, Merged(rest), Tagged(last));
      OnlyConcat(Stderr, Merged(rest), Tagged(last));
      OnlyTagged(Stdout, last, |last.chunk|);
      OnlyTagged(Stderr, last, |last.chunk|);
      assert Tagged(last)[..|last.chunk|] == Tagged(last) && last.chunk[..|last.chunk|] == last.chunk;
    }
  }
}
