/** Sending texts to an embedding model in batches: `vector/embedding.py`. */
module Embedding {
  import opened Results

  type Vector = seq<real>

  /** What one `llm.embed` call comes back with; `dim` is `None` where the reply leaves it out. */
  datatype Reply = CallFailed | NotOk | Vectors(model: string, dim: Option<int>, vectors: seq<Vector>)

  datatype Fault = EmbedCallFailed | EmbedFailed | BadResponse | DimMismatch
  datatype Config = Config(model: string, batchSize: int, batchMaxChars: int, dim: int)
  datatype Answer = Answer(model: string, vectors: seq<Vector>)

  // ----- batches

  function Chars(batch: seq<string>): nat {
    if batch == [] then 0 else Chars(batch[..|batch| - 1]) + |batch[|batch| - 1]|
  }

  /** The most texts in a batch. */
  function Most(size: int): (n: int)
    ensures n >= 1
  {
    if size < 1 then 1 else size
  }

  /** Does the batch take no further text? An empty one takes any. */
  predicate Full(batch: seq<string>, next: string, size: int, maxChars: int) {
    batch != [] && (|batch| >= Most(size) || (maxChars > 0 && Chars(batch) + |next| > maxChars))
  }

  /** The next text goes into the last batch, or opens one. */
  function Taken(batches: seq<seq<string>>, text: string, size: int, maxChars: int): (r: seq<seq<string>>)
    ensures r != []
  {
    var m := |batches| - 1;
    if m < 0 || Full(batches[m], text, size, maxChars) then batches + [[text]]
    else batches[..m] + [batches[m] + [text]]
  }

  /** The batches of the first `n` texts, taken one after the other. */
  function BatchesOf(texts: seq<string>, n: nat, size: int, maxChars: int): (r: seq<seq<string>>)
    requires n <= |texts|
    ensures r == [] <==> n == 0
  {
    if n == 0 then [] else Taken(BatchesOf(texts, n - 1, size, maxChars), texts[n - 1], size, maxChars)
  }

  function Batches(texts: seq<string>, size: int, maxChars: int): seq<seq<string>> {
    BatchesOf(texts, |texts|, size, maxChars)
  }

  /** Within the size, and within the budget of characters unless it is a single text. */
  predicate Fits(batch: seq<string>, size: int, maxChars: int) {
    && 1 <= |batch| <= Most(size)
    && (maxChars > 0 && |batch| > 1 ==> Chars(batch) <= maxChars)
  }

  /** Batches in a row: the first was closed because it could not take the next text. */
  predicate ClosedBy(a: seq<string>, b: seq<string>, size: int, maxChars: int) {
    b != [] && Full(a, b[0], size, maxChars)
  }

  /** Every batch within its bounds, and closed only by a text it could not take. */
  ghost predicate WellCut(r: seq<seq<string>>, size: int, maxChars: int) {
    && (forall i :: 0 <= i < |r| ==> Fits(r[i], size, maxChars))
    && (forall i, j :: 0 <= i && j == i + 1 < |r| ==> ClosedBy(r[i], r[j], size, maxChars))
  }

  function Flat(batches: seq<seq<string>>): seq<string> {
    if batches == [] then [] else Flat(batches[..|batches| - 1]) + batches[|batches| - 1]
  }

  lemma {:induction false} GrownFits(batch: seq<string>, next: string, size: int, maxChars: int)
    requires Fits(batch, size, maxChars) && !Full(batch, next, size, maxChars)
    ensures Fits(batch + [next], size, maxChars)
  {
    assert (batch + [next])[..|batch|] == batch;
  }

  lemma {:induction false} FlatTaken(r: seq<seq<string>>, text: string, size: int, maxChars: int)
    ensures Flat(Taken(r, text, size, maxChars)) == Flat(r) + [text]
  {
    var m, now := |r| - 1, Taken(r, text, size, maxChars);
    if m < 0 || Full(r[m], text, size, maxChars) {
      assert now == r + [[text]] && now[..|r|] == r;
    } else {
      assert now == r[..m] + [r[m] + [text]] && now[..m] == r[..m];
    }
  }

  lemma {:induction false} GrownIsWellCut(before: seq<seq<string>>, last: seq<string>, text: string, size: int, maxChars: int)
    requires WellCut(before + [last], size, maxChars) && Fits(last + [text], size, maxChars)
    ensures WellCut(before + [last + [text]], size, maxChars)
  {
    var was, now := before + [last], before + [last + [text]];
    forall i | 0 <= i < |now| ensures Fits(now[i], size, maxChars) {
      assert Fits(was[i], size, maxChars);
    }
    forall i, j | 0 <= i && j == i + 1 < |now| ensures ClosedBy(now[i], now[j], size, maxChars) {
      assert ClosedBy(was[i], was[j], size, maxChars);
    }
  }

  lemma {:induction false} WellCutTaken(r: seq<seq<string>>, text: string, size: int, maxChars: int)
    requires WellCut(r, size, maxChars)
    ensures WellCut(Taken(r, text, size, maxChars), size, maxChars)
  {
    var m := |r| - 1;
    if m >= 0 && !Full(r[m], text, size, maxChars) {
      GrownFits(r[m], text, size, maxChars);
      GrownIsWellCut(r[..m], r[m], text, size, maxChars);
      assert r[..m] + [r[m]] == r;
    }
  }

  lemma {:induction false} OneMoreText(texts: seq<string>, n: nat, size: int, maxChars: int)
    requires n < |texts|
    ensures BatchesOf(texts, n + 1, size, maxChars) == Taken(BatchesOf(texts, n, size, maxChars), texts[n], size, maxChars)
  {
  }

  lemma {:induction false} OneLonger(texts: seq<string>, n: nat)
    requires n < |texts|
    ensures texts[..n] + [texts[n]] == texts[..n + 1]
  {
  }

  /** The batches of the first `n` texts are those texts. */
  predicate Stay(texts: seq<string>, n: nat, size: int, maxChars: int)
    requires n <= |texts|
  {
    Flat(BatchesOf(texts, n, size, maxChars)) == texts[..n]
  }

  lemma {:induction false} OneMoreStays(texts: seq<string>, n: nat, size: int, maxChars: int)
    requires n < |texts| && Stay(texts, n, size, maxChars)
    ensures Stay(texts, n + 1, size, maxChars)
  {
    OneMoreText(texts, n, size, maxChars);
    FlatTaken(BatchesOf(texts, n, size, maxChars), texts[n], size, maxChars);
    OneLonger(texts, n);
  }

  lemma {:induction false} FirstTextsStay(texts: seq<string>, n: nat, size: int, maxChars: int)
    requires n <= |texts|
    ensures Stay(texts, n, size, maxChars)
  {
    if n > 0 {
      FirstTextsStay(texts, n - 1, size, maxChars);
      OneMoreStays(texts, n - 1, size, maxChars);
    }
  }

  lemma {:induction false} FirstBatchesAreWellCut(texts: seq<string>, n: nat, size: int, maxChars: int)
    requires n <= |texts|
    ensures WellCut(BatchesOf(texts, n, size, maxChars), size, maxChars)
  {
    if n > 0 {
      FirstBatchesAreWellCut(texts, n - 1, size, maxChars);
      OneMoreText(texts, n - 1, size, maxChars);
      WellCutTaken(BatchesOf(texts, n - 1, size, maxChars), texts[n - 1], size, maxChars);
    }
  }

  /** The characters of the texts of a batch. */
  function Letters(batch: seq<string>): nat {
    if batch == [] then 0 else |batch[0]| + Letters(batch[1..])
  }

  lemma {:induction false} LettersSnoc(batch: seq<string>, text: string)
    ensures Letters(batch + [text]) == Letters(batch) + |text|
  {
    if batch == [] {
      assert [] + [text] == [text] && [text][1..] == [];
    } else {
      assert (batch + [text])[1..] == batch[1..] + [text];
      LettersSnoc(batch[1..], text);
    }
  }

  lemma {:induction false} CharsAreLetters(batch: seq<string>)
    ensures Chars(batch) == Letters(batch)
  {
    if batch != [] {
      var n := |batch| - 1;
      CharsAreLetters(batch[..n]);
      LettersSnoc(batch[..n], batch[n]);
      assert batch[..n] + [batch[n]] == batch;
    }
  }

  /** The size asked for, or 1. */
  predicate AtMost(batch: seq<string>, size: int) {
    1 <= |batch| && (|batch| <= size || |batch| == 1)
  }

  /** No room for the text: the batch has its size, or its budget of characters would be passed. */
  predicate NoRoom(batch: seq<string>, text: string, size: int, maxChars: int) {
    |batch| >= size || (maxChars > 0 && Letters(batch) + |text| > maxChars)
  }

  /** No batch is over the size, or over the budget of characters unless it is a single text; and
      each is closed only where the next text has no room. */
  lemma {:induction false} BatchesKeepBounds(texts: seq<string>, size: int, maxChars: int)
    ensures var r := Batches(texts, size, maxChars);
            && (forall i :: 0 <= i < |r| ==> AtMost(r[i], size) && (maxChars > 0 && |r[i]| > 1 ==> Letters(r[i]) <= maxChars))
            && (forall i, j :: 0 <= i && j == i + 1 < |r| ==> r[j] != [] && NoRoom(r[i], r[j][0], size, maxChars))
  {
    var r := Batches(texts, size, maxChars);
    FirstBatchesAreWellCut(texts, |texts|, size, maxChars);
    forall i | 0 <= i < |r| ensures AtMost(r[i], size) && (maxChars > 0 && |r[i]| > 1 ==> Letters(r[i]) <= maxChars) {
      assert Fits(r[i], size, maxChars);
      CharsAreLetters(r[i]);
    }
    forall i, j | 0 <= i && j == i + 1 < |r| ensures r[j] != [] && NoRoom(r[i], r[j][0], size, maxChars) {
      assert ClosedBy(r[i], r[j], size, maxChars);
      CharsAreLetters(r[i]);
    }
  }

  /** Batching loses, repeats and reorders no text, keeps both bounds, and closes a batch only
      when the next text does not fit. */
  lemma {:induction false} BatchesKeepTheTexts(texts: seq<string>, size: int, maxChars: int)
    ensures Flat(Batches(texts, size, maxChars)) == texts
    ensures WellCut(Batches(texts, size, maxChars), size, maxChars)
  {
    FirstTextsStay(texts, |texts|, size, maxChars);
    FirstBatchesAreWellCut(texts, |texts|, size, maxChars);
    assert texts[..|texts|] == texts;
  }

  predicate LastIsFull(batches: seq<seq<string>>, size: int) {
    batches != [] ==> |batches[|batches| - 1]| >= Most(size)
  }

  lemma {:induction false} Opened(r: seq<seq<string>>, text: string, size: int)
    requires LastIsFull(r, size)
    ensures Taken(r, text, size, 0) == r + [[text]]
  {
  }

  lemma {:induction false} IntoTheLast(r: seq<seq<string>>, batch: seq<string>, text: string, size: int)
    requires |batch| < Most(size)
    ensures Taken(r + [batch], text, size, 0) == r + [batch + [text]]
  {
    assert (r + [batch])[..|r|] == r;
  }

  lemma {:induction false} SliceGrows(texts: seq<string>, lo: nat, k: nat, size: int, r: seq<seq<string>>, before: seq<seq<string>>,
                                      after: seq<seq<string>>)
    requires 0 < k <= Most(size) && lo + k <= |texts| && LastIsFull(r, size)
    requires before == if k == 1 then r else r + [texts[lo..lo + k - 1]]
    requires after == Taken(before, texts[lo + k - 1], size, 0)
    ensures after == r + [texts[lo..lo + k]]
  {
    if k == 1 {
      Opened(r, texts[lo], size);
      assert [texts[lo]] == texts[lo..lo + 1];
    } else {
      IntoTheLast(r, texts[lo..lo + k - 1], texts[lo + k - 1], size);
      assert texts[lo..lo + k - 1] + [texts[lo + k - 1]] == texts[lo..lo + k];
    }
  }

  /** From a full last batch on, `k` texts within the size make one more. */
  lemma {:induction false} Slice(texts: seq<string>, lo: nat, k: nat, size: int)
    requires 0 < k <= Most(size) && lo + k <= |texts|
    requires LastIsFull(BatchesOf(texts, lo, size, 0), size)
    ensures BatchesOf(texts, lo + k, size, 0) == BatchesOf(texts, lo, size, 0) + [texts[lo..lo + k]]
    decreases k
  {
    var r, before := BatchesOf(texts, lo, size, 0), BatchesOf(texts, lo + k - 1, size, 0);
    if k > 1 { Slice(texts, lo, k - 1, size); }
    OneMoreText(texts, lo + k - 1, size, 0);
    SliceGrows(texts, lo, k, size, r, before, BatchesOf(texts, lo + k, size, 0));
  }

  lemma {:induction false} NextSlice(texts: seq<string>, i: nat, hi: nat, size: int)
    requires i < hi <= |texts| && LastIsFull(BatchesOf(texts, i, size, 0), size)
    requires hi - i == Most(size) || (hi == |texts| && hi - i <= Most(size))
    ensures BatchesOf(texts, hi, size, 0) == BatchesOf(texts, i, size, 0) + [texts[i..hi]]
    ensures hi < |texts| ==> LastIsFull(BatchesOf(texts, hi, size, 0), size)
  {
    Slice(texts, i, hi - i, size);
  }

  method Slices(texts: seq<string>, size: int) returns (batches: seq<seq<string>>)
    ensures batches == Batches(texts, size, 0)
  {
    batches := [];
    var step := Most(size);
    var i := 0;
    while i < |texts|
      invariant 0 <= i <= |texts| && batches == BatchesOf(texts, i, size, 0)
      invariant i < |texts| ==> LastIsFull(batches, size)
    {
      var hi := if i + step < |texts| then i + step else |texts|;
      NextSlice(texts, i, hi, size);
      batches := batches + [texts[i..hi]];
      i := hi;
    }
  }

  lemma {:induction false} BudgetOff(texts: seq<string>, n: nat, size: int, maxChars: int)
    requires maxChars <= 0 && n <= |texts|
    ensures BatchesOf(texts, n, size, maxChars) == BatchesOf(texts, n, size, 0)
  {
    if n > 0 { BudgetOff(texts, n - 1, size, maxChars); }
  }

  /** The batches so far, with the one being filled. */
  function WithOpen(batches: seq<seq<string>>, batch: seq<string>): seq<seq<string>> {
    if batch == [] then batches else batches + [batch]
  }

  lemma {:induction false} TakenIntoOpen(batches: seq<seq<string>>, batch: seq<string>, text: string, size: int, maxChars: int)
    requires batch == [] ==> batches == []
    ensures Taken(WithOpen(batches, batch), text, size, maxChars)
         == if Full(batch, text, size, maxChars) then WithOpen(batches + [batch], [text]) else WithOpen(batches, batch + [text])
  {
    if batch == [] {
      assert [] + [text] == [text];
    } else {
      assert (batches + [batch])[..|batches|] == batches;
    }
  }

  lemma {:induction false} CharsStep(batch: seq<string>, text: string)
    ensures Chars(batch + [text]) == Chars(batch) + |text|
  {
    assert (batch + [text])[..|batch|] == batch;
  }

  /** One text's turn: the open batch is closed if it cannot take it. */
  method Fill(batches: seq<seq<string>>, batch: seq<string>, chars: nat, text: string, size: int, maxChars: int)
    returns (batches': seq<seq<string>>, batch': seq<string>, chars': nat)
    requires maxChars > 0 && chars == Chars(batch) && (batch == [] ==> batches == [])
    ensures batch' != [] && chars' == Chars(batch')
    ensures WithOpen(batches', batch') == Taken(WithOpen(batches, batch), text, size, maxChars)
  {
    TakenIntoOpen(batches, batch, text, size, maxChars);
    batches', batch', chars' := batches, batch, chars;
    if batch != [] && (|batch| >= Most(size) || chars + |text| > maxChars) {
      batches' := batches + [batch];
      batch', chars' := [], 0;
    }
    CharsStep(batch', text);
    batch' := batch' + [text];
    chars' := chars' + |text|;
  }

  method Filled(texts: seq<string>, size: int, maxChars: int) returns (batches: seq<seq<string>>)
    requires maxChars > 0
    ensures batches == Batches(texts, size, maxChars)
  {
    batches := [];
    var batch, chars := [], 0;
    for i := 0 to |texts|
      invariant chars == Chars(batch) && (batch == [] ==> batches == [])
      invariant WithOpen(batches, batch) == BatchesOf(texts, i, size, maxChars)
    {
      OneMoreText(texts, i, size, maxChars);
      batches, batch, chars := Fill(batches, batch, chars, texts[i], size, maxChars);
    }
    if batch != [] {
      batches := batches + [batch];
    }
  }

  /** `batched`: plain slices without a budget of characters, a filling buffer with one. */
  method Batched(texts: seq<string>, size: int, maxChars: int) returns (batches: seq<seq<string>>)
    ensures batches == Batches(texts, size, maxChars)
  {
    if maxChars <= 0 {
      batches := Slices(texts, size);
      BudgetOff(texts, |texts|, size, maxChars);
    } else {
      batches := Filled(texts, size, maxChars);
    }
  }

  // ----- one answer from many calls

  /** What a reply to `asked` texts is worth: one vector a text, of the configured width. */
  function Judged(reply: Reply, asked: nat, dim: int): Result<Answer, Fault> {
    match reply
    case CallFailed => Err(EmbedCallFailed)
    case NotOk => Err(EmbedFailed)
    case Vectors(model, said, got) =>
      if |got| != asked then Err(BadResponse)
      else
        var width := if said.Some? && said.value != 0 then said else if got != [] then Some(|got[0]|) else None;
        if width.Some? && width.value != dim then Err(DimMismatch) else Ok(Answer(model, got))
  }

  /** A reply is good exactly if it has one vector a text and does not contradict the configured
      width, by what it says of itself or, where it says nothing or 0, by its first vector. */
  lemma {:induction false} GoodReplyIff(reply: Reply, asked: nat, dim: int)
    ensures Judged(reply, asked, dim).Ok?
        <==> && reply.Vectors? && |reply.vectors| == asked
             && (reply.dim in {None, Some(0)} ==> asked > 0 ==> |reply.vectors[0]| == dim)
             && (reply.dim !in {None, Some(0)} ==> reply.dim == Some(dim))
    ensures Judged(reply, asked, dim).Ok? ==> Judged(reply, asked, dim).value == Answer(reply.model, reply.vectors)
  {
  }

  /** The answers of the calls from number `k` on, as one: the first fault, or every vector in order. */
  function Answered(batches: seq<seq<string>>, k: nat, ask: (nat, seq<string>) -> Reply, dim: int, model: string,
                    vectors: seq<Vector>): Result<Answer, Fault>
    requires k <= |batches|
    decreases |batches| - k
  {
    if k == |batches| then Ok(Answer(model, vectors))
    else match Judged(ask(k, batches[k]), |batches[k]|, dim)
      case Err(e) => Err(e)
      case Ok(a) => Answered(batches, k + 1, ask, dim, if a.model != "" then a.model else model, vectors + a.vectors)
  }

  function Embedded(texts: seq<string>, ask: (nat, seq<string>) -> Reply, cfg: Config): Result<Answer, Fault> {
    Answered(Batches(texts, cfg.batchSize, cfg.batchMaxChars), 0, ask, cfg.dim, cfg.model, [])
  }

  /** `embed_texts`; `ask(k, batch)` is the reply to the k-th call. */
  method EmbedTexts(texts: seq<string>, ask: (nat, seq<string>) -> Reply, cfg: Config)
    returns (answer: Result<Answer, Fault>, calls: nat)
    ensures answer == Embedded(texts, ask, cfg)
    ensures calls <= |Batches(texts, cfg.batchSize, cfg.batchMaxChars)|
    ensures answer.Ok? ==> calls == |Batches(texts, cfg.batchSize, cfg.batchMaxChars)|
    ensures texts != [] ==> calls > 0
  {
    var model, vectors := cfg.model, [];
    var batches := Batched(texts, cfg.batchSize, cfg.batchMaxChars);
    calls := 0;
    while calls < |batches|
      invariant calls <= |batches|
      invariant Embedded(texts, ask, cfg) == Answered(batches, calls, ask, cfg.dim, model, vectors)
      decreases |batches| - calls
    {
      var judged := Judged(ask(calls, batches[calls]), |batches[calls]|, cfg.dim);
      calls := calls + 1;
      if judged.Err? {
        return Err(judged.error), calls;
      }
      model := if judged.value.model != "" then judged.value.model else model;
      vectors := vectors + judged.value.vectors;
    }
    answer := Ok(Answer(model, vectors));
  }

  // ----- what an answer means

  function Encoded(texts: seq<string>, enc: string -> Vector): (r: seq<Vector>)
    ensures |r| == |texts|
  {
    seq(|texts|, i requires 0 <= i < |texts| => enc(texts[i]))
  }

  /** The model computes `enc` of every text it is given. */
  ghost predicate Computes(ask: (nat, seq<string>) -> Reply, enc: string -> Vector) {
    forall k, batch :: ask(k, batch).Vectors? ==> ask(k, batch).vectors == Encoded(batch, enc)
  }

  lemma {:induction false} AnsweredIsAligned(batches: seq<seq<string>>, k: nat, ask: (nat, seq<string>) -> Reply, dim: int, model: string,
                                             vectors: seq<Vector>, enc: string -> Vector)
    requires k <= |batches| && Answered(batches, k, ask, dim, model, vectors).Ok?
    requires Computes(ask, enc) && vectors == Encoded(Flat(batches[..k]), enc)
    ensures Answered(batches, k, ask, dim, model, vectors).value.vectors == Encoded(Flat(batches), enc)
    decreases |batches| - k
  {
    if k == |batches| {
      assert batches[..k] == batches;
    } else {
      var a := Judged(ask(k, batches[k]), |batches[k]|, dim).value;
      assert batches[..k + 1][..k] == batches[..k];
      AnsweredIsAligned(batches, k + 1, ask, dim, if a.model != "" then a.model else model, vectors + a.vectors, enc);
    }
  }

  /** However the texts fall into batches, vector i of the answer is the encoding of text i. */
  lemma {:induction false} EveryTextGetsItsVector(texts: seq<string>, ask: (nat, seq<string>) -> Reply, cfg: Config, enc: string -> Vector)
    requires Embedded(texts, ask, cfg).Ok? && Computes(ask, enc)
    ensures Embedded(texts, ask, cfg).value.vectors == Encoded(texts, enc)
  {
    var batches := Batches(texts, cfg.batchSize, cfg.batchMaxChars);
    BatchesKeepTheTexts(texts, cfg.batchSize, cfg.batchMaxChars);
    AnsweredIsAligned(batches, 0, ask, cfg.dim, cfg.model, [], enc);
  }

  lemma {:induction false} AnsweredCounts(batches: seq<seq<string>>, k: nat, ask: (nat, seq<string>) -> Reply, dim: int, model: string,
                                          vectors: seq<Vector>)
    requires k <= |batches| && Answered(batches, k, ask, dim, model, vectors).Ok?
    requires |vectors| == |Flat(batches[..k])|
    ensures |Answered(batches, k, ask, dim, model, vectors).value.vectors| == |Flat(batches)|
    decreases |batches| - k
  {
    if k == |batches| {
      assert batches[..k] == batches;
    } else {
      var a := Judged(ask(k, batches[k]), |batches[k]|, dim).value;
      assert batches[..k + 1][..k] == batches[..k];
      AnsweredCounts(batches, k + 1, ask, dim, if a.model != "" then a.model else model, vectors + a.vectors);
    }
  }

  /** Whatever the model computes, an answer has one vector a text. */
  lemma {:induction false} OneVectorPerText(texts: seq<string>, ask: (nat, seq<string>) -> Reply, cfg: Config)
    requires Embedded(texts, ask, cfg).Ok?
    ensures |Embedded(texts, ask, cfg).value.vectors| == |texts|
  {
    BatchesKeepTheTexts(texts, cfg.batchSize, cfg.batchMaxChars);
    AnsweredCounts(Batches(texts, cfg.batchSize, cfg.batchMaxChars), 0, ask, cfg.dim, cfg.model, []);
  }

  /** Every reply that comes with vectors names `model`. */
  ghost predicate Names(ask: (nat, seq<string>) -> Reply, model: string) {
    forall k, batch :: ask(k, batch).Vectors? ==> ask(k, batch).model == model
  }

  lemma {:induction false} AnsweredByName(batches: seq<seq<string>>, k: nat, ask: (nat, seq<string>) -> Reply, dim: int, model: string,
                                          vectors: seq<Vector>, said: string)
    requires k <= |batches| && Answered(batches, k, ask, dim, model, vectors).Ok? && Names(ask, said) && said != ""
    requires k < |batches| || model == said
    ensures Answered(batches, k, ask, dim, model, vectors).value.model == said
    decreases |batches| - k
  {
    if k < |batches| {
      var a := Judged(ask(k, batches[k]), |batches[k]|, dim).value;
      AnsweredByName(batches, k + 1, ask, dim, said, vectors + a.vectors, said);
    }
  }

  /** The answer names the model that answered, whatever the settings name. */
  lemma {:induction false} TheReportedModelWins(texts: seq<string>, ask: (nat, seq<string>) -> Reply, cfg: Config, said: string)
    requires texts != [] && Embedded(texts, ask, cfg).Ok? && Names(ask, said) && said != ""
    ensures Embedded(texts, ask, cfg).value.model == said
  {
    AnsweredByName(Batches(texts, cfg.batchSize, cfg.batchMaxChars), 0, ask, cfg.dim, cfg.model, [], said);
  }
}
