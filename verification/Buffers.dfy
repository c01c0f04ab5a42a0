/** When a receive buffer is large enough for a stream, for any framer. */
module Buffers {
  import opened Framing
  import opened Sequences

  /** No prefix of the stream leaves bufSize or more bytes undispatched. */
  ghost predicate NeverFull<B(!new)>(f: Framer<B>, stream: seq<B>, bufSize: nat)
    requires Lawful(f)
  {
    forall n :: 0 <= n <= |stream| ==> |Rest(f, stream[..n])| < bufSize
  }

  ghost predicate AllFit<B>(ms: seq<Message<B>>, bufSize: nat) {
    forall m <- ms :: |m.body| <= bufSize
  }

  lemma ShortPrefixIncomplete<B(!new)>(f: Framer<B>, prefix: seq<B>, missing: seq<B>)
    requires Lawful(f)
    requires f.Size(prefix + missing) == 0 || f.Size(prefix + missing) > |prefix|
    ensures f.Size(prefix) == 0 && Rest(f, prefix) == prefix
  {
    assert Stable(f, prefix, missing);
  }

  lemma TailPrefix<B(!new)>(f: Framer<B>, tail: seq<B>, n: nat)
    requires Lawful(f) && f.Size(tail) == 0 && n <= |tail|
    ensures Rest(f, tail[..n]) == tail[..n]
  {
    assert tail[..n] + tail[n..] == tail;
    ShortPrefixIncomplete(f, tail[..n], tail[n..]);
  }

  /** A prefix that ends inside the first message, and one that ends behind it. */
  lemma HeadPrefix<B(!new)>(f: Framer<B>, m: Message<B>, later: seq<B>, n: nat)
    requires Lawful(f) && WellFormed(f, m) && n <= |m.body| + |later|
    ensures n < |m.body| ==> (m.body + later)[..n] == m.body[..n] && Rest(f, m.body[..n]) == m.body[..n]
    ensures n >= |m.body| ==> Rest(f, (m.body + later)[..n]) == Rest(f, later[..n - |m.body|])
  {
    if n < |m.body| {
      assert m.body[..n] + m.body[n..] == m.body;
      ShortPrefixIncomplete(f, m.body[..n], m.body[n..]);
    } else {
      var rest := later[..n - |m.body|];
      assert (m.body + later)[..n] == m.body + rest;
      assert Stable(f, m.body, rest);
      CutWhole(m.body, rest);
    }
  }

  lemma NeverFullCons<B(!new)>(f: Framer<B>, m: Message<B>, later: seq<B>, bufSize: nat)
    requires Lawful(f) && WellFormed(f, m)
    ensures NeverFull(f, m.body + later, bufSize) <==> |m.body| <= bufSize && NeverFull(f, later, bufSize)
  {
    var stream := m.body + later;
    if bufSize < |m.body| {
      HeadPrefix(f, m, later, bufSize);
      assert |Rest(f, stream[..bufSize])| == bufSize;
    }
    if NeverFull(f, stream, bufSize) {
      forall n | 0 <= n <= |later| ensures |Rest(f, later[..n])| < bufSize {
        var k := |m.body| + n;
        HeadPrefix(f, m, later, k);
        assert |Rest(f, stream[..k])| < bufSize;
      }
    }
    if |m.body| <= bufSize && NeverFull(f, later, bufSize) {
      forall n | 0 <= n <= |stream| ensures |Rest(f, stream[..n])| < bufSize {
        HeadPrefix(f, m, later, n);
        if n >= |m.body| {
          var k := n - |m.body|;
          assert |Rest(f, later[..k])| < bufSize;
        }
      }
    }
  }

  /** A stream of whole messages and an incomplete tail never fills the buffer exactly if each of them fits. */
  lemma {:induction false} NeverFullIff<B(!new)>(f: Framer<B>, ms: seq<Message<B>>, tail: seq<B>, bufSize: nat)
    requires Lawful(f) && AllWellFormed(f, ms) && f.Size(tail) == 0
    ensures NeverFull(f, Encode(ms) + tail, bufSize) <==> AllFit(ms, bufSize) && |tail| < bufSize
  {
    if ms == [] {
      EmptyUnit(tail);
      forall n | 0 <= n <= |tail| ensures Rest(f, tail[..n]) == tail[..n] {
        TailPrefix(f, tail, n);
      }
      assert tail[..|tail|] == tail;
      if |tail| >= bufSize {
        assert |Rest(f, tail[..|tail|])| >= bufSize;
      }
    } else {
      var later := Encode(ms[1..]) + tail;
      AppendAssoc(ms[0].body, Encode(ms[1..]), tail);
      assert WellFormed(f, ms[0]) && ms[0] in ms && forall m <- ms[1..] :: m in ms;
      NeverFullCons(f, ms[0], later, bufSize);
      NeverFullIff(f, ms[1..], tail, bufSize);
      assert ms == [ms[0]] + ms[1..];
    }
  }

  // ---------------------------------------------------------------- what a finite buffer lets through

  /** Every byte of the stream found room behind the undispatched ones before it. */
  ghost predicate FoundRoom<B(!new)>(f: Framer<B>, stream: seq<B>, bufSize: nat)
    requires Lawful(f)
  {
    forall n :: 0 <= n < |stream| ==> |Rest(f, stream[..n])| < bufSize
  }

  lemma PendingFoundRoom<B(!new)>(f: Framer<B>, pending: seq<B>, bufSize: nat)
    requires Lawful(f) && |pending| <= bufSize
    ensures FoundRoom(f, pending, bufSize)
  {
  }

  /** More bytes find room behind what one pass over the stream so far leaves. */
  lemma {:induction false} MoreFoundRoom<B(!new)>(f: Framer<B>, stream: seq<B>, got: seq<B>, bufSize: nat)
    requires Lawful(f) && FoundRoom(f, stream, bufSize) && FoundRoom(f, Rest(f, stream) + got, bufSize)
    ensures FoundRoom(f, stream + got, bufSize)
  {
    var whole, rest := stream + got, Rest(f, stream);
    forall n | 0 <= n < |whole| ensures |Rest(f, whole[..n])| < bufSize {
      if n < |stream| {
        CutAppend(stream, got, n);
      } else {
        var k := n - |stream|;
        var m := |rest| + k;
        assert whole[..n] == stream + got[..k] && (rest + got)[..m] == rest + got[..k];
        FramesSplit(f, stream, got[..k]);
      }
    }
  }

  /** A stream that found room and leaves less than a full buffer never fills it, and the other way round. */
  lemma NeverFullIsRoom<B(!new)>(f: Framer<B>, stream: seq<B>, bufSize: nat)
    requires Lawful(f)
    ensures NeverFull(f, stream, bufSize) <==> FoundRoom(f, stream, bufSize) && |Rest(f, stream)| < bufSize
  {
    assert stream[..|stream|] == stream;
  }

  lemma NeverFullPrefix<B(!new)>(f: Framer<B>, prefix: seq<B>, whole: seq<B>, bufSize: nat)
    requires Lawful(f) && prefix <= whole && NeverFull(f, whole, bufSize)
    ensures NeverFull(f, prefix, bufSize)
  {
    forall n | 0 <= n <= |prefix| ensures |Rest(f, prefix[..n])| < bufSize {
      assert prefix[..n] == whole[..n];
    }
  }

  /** A stream that never fills the buffer does not fill it when it goes on behind what one pass has left. */
  lemma {:induction false} NeverFullBehind<B(!new)>(f: Framer<B>, stream: seq<B>, more: seq<B>, bufSize: nat)
    requires Lawful(f) && NeverFull(f, stream + more, bufSize)
    ensures NeverFull(f, Rest(f, stream) + more, bufSize)
  {
    var rest := Rest(f, stream);
    forall n | 0 <= n <= |rest + more| ensures |Rest(f, (rest + more)[..n])| < bufSize {
      if n < |rest| {
        CutAppend(rest, more, n);
        CutWhole(stream, more);
        assert |Rest(f, (stream + more)[..|stream|])| < bufSize;
      } else {
        var k := n - |rest|;
        var m := |stream| + k;
        FramesSplit(f, stream, more[..k]);
        assert (rest + more)[..n] == rest + more[..k] && (stream + more)[..m] == stream + more[..k];
        assert |Rest(f, (stream + more)[..m])| < bufSize;
      }
    }
  }

  /**
   How a reader with a finite buffer must end: it has got a part of what was offered, all of which
   found room, and all of it unless the buffer is full. Then it is full exactly if the whole offer
   would fill it.
   */
  lemma FullExactly<B(!new)>(f: Framer<B>, pending: seq<B>, offered: seq<B>, got: seq<B>, full: bool, bufSize: nat)
    requires Lawful(f) && FoundRoom(f, pending + got, bufSize)
    requires got <= offered && (!full ==> got == offered)
    requires full <==> |Rest(f, pending + got)| >= bufSize
    ensures full <==> !NeverFull(f, pending + offered, bufSize)
  {
    NeverFullIsRoom(f, pending + got, bufSize);
    if full && NeverFull(f, pending + offered, bufSize) {
      NeverFullPrefix(f, pending + got, pending + offered, bufSize);
    }
  }
}
