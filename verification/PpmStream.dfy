/** The compressed form of a message, as a function: the model learns the bytes one by
    one while the range coder narrows, and the final low is flushed.  A reader of the
    finished stream stays inside every interval the writer went through. */
module PpmStream {
  import opened RangeCoding
  import opened PpmModel

  /** Writer and reader agree on all of this between two bytes. */
  datatype State = State(model: Model, context: Key, coder: Coder, out: seq<Byte>)

  const Start := State(FreshModel, Root, FreshCoder, [])

  ghost predicate ValidState(st: State) {
    Between(st.model, st.context) && Ready(st.coder)
  }

  lemma BetweenFacts(m: Model, k: Key)
    requires Between(m, k)
    ensures ContextsValid(m) && Chain(m, k) && k in m && Depth(k) <= SUBCONTEXT_ORDER
    ensures |m| < MAX_SYMBOLS - SUBCONTEXT_ORDER
  {
  }

  function Step(st: State, v: Byte): (r: State)
    requires ValidState(st)
    ensures ValidState(r)
    ensures st.out <= r.out
  {
    NextBetween(st.model, st.context, v);
    var coded := EncodeSlices(st.coder, Slices(st.model, st.context, v));
    State(NextModel(st.model, st.context, v), NextContext(st.model, st.context, v), coded.0, st.out + coded.1)
  }

  function EncodeAll(msg: seq<Byte>): (st: State)
    ensures ValidState(st)
  {
    if msg == [] then
      FreshBetween();
      Start
    else Step(EncodeAll(msg[..|msg| - 1]), msg[|msg| - 1])
  }

  function Stream(msg: seq<Byte>): seq<Byte> {
    EncodeAll(msg).out + Flush(EncodeAll(msg).coder.low)
  }

  lemma EncodeNext(msg: seq<Byte>, i: nat)
    requires i < |msg|
    ensures EncodeAll(msg[..i + 1]) == Step(EncodeAll(msg[..i]), msg[i])
  {
    assert msg[..i + 1][..i] == msg[..i];
  }

  /** What has been sent stays sent. */
  lemma {:induction false} OutGrows(msg: seq<Byte>, i: nat)
    requires i <= |msg|
    ensures EncodeAll(msg[..i]).out <= EncodeAll(msg).out
    ensures EncodeAll(msg[..i]).out <= Stream(msg)
    decreases |msg| - i
  {
    if i < |msg| {
      EncodeNext(msg, i);
      OutGrows(msg, i + 1);
    } else {
      assert msg[..i] == msg;
    }
  }

  /** The 32 bits that follow what had been sent after i bytes. */
  function CodeAt(msg: seq<Byte>, i: nat): int
    requires i <= |msg|
  {
    Window(Stream(msg), |EncodeAll(msg[..i]).out|)
  }

  lemma SentBetween(msg: seq<Byte>, i: nat)
    requires i < |msg|
    ensures var st := EncodeAll(msg[..i]);
            var sent := EncodeSlices(st.coder, Slices(st.model, st.context, msg[i])).1;
            var p := |st.out|;
            && EncodeAll(msg[..i + 1]).out == st.out + sent
            && p + |sent| <= |Stream(msg)| && Stream(msg)[p..p + |sent|] == sent
  {
    hide Stream, EncodeAll, ValidSlices, Between, Slices;
    EncodeNext(msg, i);
    OutGrows(msg, i);
    OutGrows(msg, i + 1);
  }

  /** The flushed low is what the reader finds after the last byte. */
  lemma CodeAtEnd(msg: seq<Byte>)
    ensures CodeAt(msg, |msg|) == EncodeAll(msg).coder.low
  {
    assert msg[..|msg|] == msg;
    FlushWindow(Stream(msg), |EncodeAll(msg).out|, EncodeAll(msg).coder.low);
  }

  /** The reader's code is inside the interval of every state of the writer: successive
      intervals nest, and the flush picks a point of the last one. */
  lemma {:induction false} CodeInside(msg: seq<Byte>, i: nat)
    requires i <= |msg|
    ensures Contains(EncodeAll(msg[..i]).coder, CodeAt(msg, i))
    decreases |msg| - i
  {
    if i == |msg| {
      CodeAtEnd(msg);
      assert msg[..i] == msg;
    } else {
      CodeInside(msg, i + 1);
      CodeBack(msg, i);
    }
  }

  lemma CodeBack(msg: seq<Byte>, i: nat)
    requires i < |msg| && Contains(EncodeAll(msg[..i + 1]).coder, CodeAt(msg, i + 1))
    ensures Contains(EncodeAll(msg[..i]).coder, CodeAt(msg, i))
  {
    hide EncodeAll, Stream, Between, Slices, ValidSlices, EncodeSlices, Window;
    var st := EncodeAll(msg[..i]);
    BetweenFacts(st.model, st.context);
    EncodeNext(msg, i);
    SentBetween(msg, i);
    SlicesBack(Stream(msg), |st.out|, st.coder, Slices(st.model, st.context, msg[i]));
  }

  lemma {:induction false} SlicesMove(c: Coder, es: seq<Slice>)
    requires Ready(c) && ValidSlices(es) && es != [] && es[|es| - 1].under > 0
    ensures EncodeSlices(c, es).1 != [] || EncodeSlices(c, es).0.low > 0
    decreases |es|
  {
    var e := es[0];
    NarrowInside(c, e);
    if |es| > 1 {
      SlicesMove(EncodeSlice(c, e).0, es[1..]);
    } else {
      assert e.under * (c.range / e.total) >= 1 by {
        MulMono(1, c.range / e.total, e.under);
      }
      assert es[1..] == [];
    }
  }

  /** The slice of a symbol starts above the escape weight of its context. */
  lemma {:induction false} SlicesLast(m: Model, k: Key, v: Byte)
    requires ContextsValid(m) && Chain(m, k)
    ensures Slices(m, k, v) != [] && Slices(m, k, v)[|Slices(m, k, v)| - 1].under > 0
    decreases Depth(k)
  {
    if k.Child? && m[k].freq[v] == 0 {
      SlicesLast(m, Suffix(k), v);
    } else if k.Child? {
      SumZero(m[k].freq, 0, |m[k].freq|);
    }
  }

  /** Only the empty message has an empty stream: a result of 0 means failure. */
  lemma {:induction false} StreamNotEmpty(msg: seq<Byte>)
    requires msg != []
    ensures Stream(msg) != []
  {
    hide Between, Slices, EncodeSlices, ContextsValid;
    var st := EncodeAll(msg[..|msg| - 1]);
    BetweenFacts(st.model, st.context);
    SlicesLast(st.model, st.context, msg[|msg| - 1]);
    SlicesMove(st.coder, Slices(st.model, st.context, msg[|msg| - 1]));
  }
}
