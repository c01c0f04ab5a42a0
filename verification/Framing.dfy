/**
 The theory of incremental framing: a process_data loop repeatedly takes one whole message off the
 front of its input and stops at the first incomplete one. The loop is described by a framer, which
 stands for the virtual process_data that EpollNetTcp::handle_read calls.
 */
module Framing {
  import opened Sequences

  /** One call of a message handler: the type it was chosen by and the bytes it was given. */
  datatype Message<B> = Message(kind: nat, body: seq<B>)

  datatype Framer<!B> = Framer(size: seq<B> -> nat, kind: seq<B> -> nat, journals: nat -> bool) {
    /** Bytes of the head message, 0 while it is incomplete (size_process in the source). */
    function Size(data: seq<B>): nat {
      size(data)
    }

    /** The type the head message is dispatched on. */
    function Kind(data: seq<B>): nat {
      kind(data)
    }

    /** Whether a message of this type is appended to the journal file. */
    predicate Journals(messageKind: nat) {
      journals(messageKind)
    }
  }

  /** Bytes that arrive after a whole head message do not change what it is. */
  ghost predicate Stable<B>(f: Framer<B>, a: seq<B>, b: seq<B>) {
    f.Size(a) > 0 ==> f.Size(a + b) == f.Size(a) && f.Kind(a + b) == f.Kind(a)
  }

  /** A head message never exceeds its input, and later bytes do not change it. */
  ghost predicate Lawful<B(!new)>(f: Framer<B>) {
    && (forall data :: f.Size(data) <= |data|)
    && (forall a, b :: Stable(f, a, b))
  }

  /** The messages one pass dispatches. */
  function Frames<B(!new)>(f: Framer<B>, data: seq<B>): (ms: seq<Message<B>>)
    requires Lawful(f)
    decreases |data|
  {
    var n := f.Size(data);
    if n == 0 then [] else [Message(f.Kind(data), data[..n])] + Frames(f, data[n..])
  }

  /** The bytes one pass leaves. */
  function Rest<B(!new)>(f: Framer<B>, data: seq<B>): (rest: seq<B>)
    requires Lawful(f)
    ensures |rest| <= |data|
    ensures f.Size(rest) == 0
    decreases |data|
  {
    var n := f.Size(data);
    if n == 0 then data else Rest(f, data[n..])
  }

  /** The wire image of a message list. */
  function Encode<B>(ms: seq<Message<B>>): (data: seq<B>) {
    if ms == [] then [] else ms[0].body + Encode(ms[1..])
  }

  lemma {:induction false} EncodeAppend<B>(a: seq<Message<B>>, b: seq<Message<B>>)
    ensures Encode(a + b) == Encode(a) + Encode(b)
  {
    if a == [] {
      assert a + b == b;
    } else {
      EncodeAppend(a[1..], b);
      ConsAppend(a, b);
      AppendAssoc(a[0].body, Encode(a[1..]), Encode(b));
    }
  }

  /** A message whose body is exactly one frame of its own kind. */
  predicate WellFormed<B(!new)>(f: Framer<B>, m: Message<B>) {
    && m.body != []
    && f.Size(m.body) == |m.body|
    && f.Kind(m.body) == m.kind
  }

  ghost predicate AllWellFormed<B(!new)>(f: Framer<B>, ms: seq<Message<B>>) {
    forall m <- ms :: WellFormed(f, m)
  }

  /** Parsing in two instalments, with the leftover carried over, is parsing at once. */
  lemma {:induction false} FramesSplit<B(!new)>(f: Framer<B>, a: seq<B>, b: seq<B>)
    requires Lawful(f)
    ensures Frames(f, a + b) == Frames(f, a) + Frames(f, Rest(f, a) + b)
    ensures Rest(f, a + b) == Rest(f, Rest(f, a) + b)
    decreases |a|
  {
    var n := f.Size(a);
    if n > 0 {
      assert Stable(f, a, b);
      CutAppend(a, b, n);
      FramesSplit(f, a[n..], b);
      AppendAssoc([Message(f.Kind(a), a[..n])], Frames(f, a[n..]), Frames(f, Rest(f, a) + b));
    } else {
      assert Frames(f, a) == [];
    }
  }

  /** No byte is lost, added or reordered: the dispatched bodies and the leftover are the input. */
  lemma {:induction false} FramesConserve<B(!new)>(f: Framer<B>, data: seq<B>)
    requires Lawful(f)
    ensures data == Encode(Frames(f, data)) + Rest(f, data)
    decreases |data|
  {
    var n := f.Size(data);
    if n > 0 {
      FramesConserve(f, data[n..]);
      assert data == data[..n] + data[n..];
    }
  }

  /** Parsing undoes encoding, whatever tail follows. */
  lemma {:induction false} FramesOfEncode<B(!new)>(f: Framer<B>, ms: seq<Message<B>>, tail: seq<B>)
    requires Lawful(f) && AllWellFormed(f, ms)
    ensures Frames(f, Encode(ms) + tail) == ms + Frames(f, tail)
    ensures Rest(f, Encode(ms) + tail) == Rest(f, tail)
  {
    if ms == [] {
      assert Encode(ms) + tail == tail;
    } else {
      var m, later := ms[0], Encode(ms[1..]) + tail;
      assert WellFormed(f, m) && Stable(f, m.body, later);
      AppendAssoc(m.body, Encode(ms[1..]), tail);
      CutWhole(m.body, later);
      FramesOfEncode(f, ms[1..], tail);
      AppendAssoc([m], ms[1..], Frames(f, tail));
      assert [m] + ms[1..] == ms;
    }
  }

  /** Whatever part of a stream has arrived, its messages are the first messages of the stream. */
  lemma PrefixFrames<B(!new)>(f: Framer<B>, prefix: seq<B>, whole: seq<B>)
    requires Lawful(f)
    requires prefix <= whole
    ensures Frames(f, prefix) <= Frames(f, whole)
  {
    assert whole == prefix + whole[|prefix|..];
    FramesSplit(f, prefix, whole[|prefix|..]);
  }

  // ---------------------------------------------------------------- journalled bytes

  function Saved<B>(f: Framer<B>, ms: seq<Message<B>>): (bytes: seq<B>) {
    if ms == [] then [] else (if f.Journals(ms[0].kind) then ms[0].body else []) + Saved(f, ms[1..])
  }

  lemma {:induction false} SavedAppend<B>(f: Framer<B>, a: seq<Message<B>>, b: seq<Message<B>>)
    ensures Saved(f, a + b) == Saved(f, a) + Saved(f, b)
  {
    if a == [] {
      assert a + b == b;
    } else {
      SavedAppend(f, a[1..], b);
      ConsAppend(a, b);
      AppendAssoc(if f.Journals(a[0].kind) then a[0].body else [], Saved(f, a[1..]), Saved(f, b));
    }
  }

  /** Journalled messages are stored verbatim, the others not at all. */
  lemma {:induction false} SavedWhole<B>(f: Framer<B>, ms: seq<Message<B>>)
    ensures (forall m <- ms :: f.Journals(m.kind)) ==> Saved(f, ms) == Encode(ms)
    ensures (forall m <- ms :: !f.Journals(m.kind)) ==> Saved(f, ms) == []
  {
    if ms != [] {
      SavedWhole(f, ms[1..]);
    }
  }
}
