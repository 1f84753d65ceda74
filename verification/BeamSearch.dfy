/** The decoding loop over the shared cache, and the cp / rm / cp / rm shuffle by which beam
    search hands histories from decoder to decoder. */
module BeamSearch {
  import opened KvCache
  import opened BeamRun

  // ---- the shuffle ----

  /** The temporary tag of decoder `j`. */
  function Temp(j: int): int { MAX_DECODERS + j }

  /** Copy the history chosen for each active decoder below `n` to a temporary tag. */
  function CopyOut(cells: seq<Cell>, act: seq<bool>, src: seq<nat>, n: nat): (r: seq<Cell>)
    requires n <= |act| == |src|
    ensures |r| == |cells|
  {
    if n == 0 then cells
    else
      var r := CopyOut(cells, act, src, n - 1);
      if act[n - 1] then Cp(r, src[n - 1], Temp(n - 1), -1, -1) else r
  }

  /** Replace each active decoder's history by the one under its temporary tag. */
  function MoveIn(cells: seq<Cell>, act: seq<bool>, n: nat): (r: seq<Cell>)
    requires n <= |act|
    ensures |r| == |cells|
  {
    if n == 0 then cells
    else
      var r := MoveIn(cells, act, n - 1);
      var j := n - 1;
      if act[j] then Rm(Cp(Rm(r, j, -1, -1), Temp(j), j, -1, -1), Temp(j), -1, -1) else r
  }

  function Shuffle(cells: seq<Cell>, act: seq<bool>, src: seq<nat>): (r: seq<Cell>)
    requires |act| == |src|
    ensures |r| == |cells|
  {
    MoveIn(CopyOut(cells, act, src, |act|), act, |act|)
  }

  /** The two loops of the source do the shuffle in place. */
  method ShuffleInPlace(cache: Cache, act: seq<bool>, src: seq<nat>)
    requires |act| == |src| && cache.head <= cache.cells.Length
    modifies cache, cache.cells
    ensures cache.cells[..] == Shuffle(old(cache.cells[..]), act, src)
  {
    ghost var was := cache.cells[..];
    for j := 0 to |act|
      invariant cache.cells[..] == CopyOut(was, act, src, j) && cache.head <= cache.cells.Length
    {
      if act[j] {
        cache.SeqCp(src[j], Temp(j), -1, -1);
      }
    }
    ghost var out := cache.cells[..];
    for j := 0 to |act|
      invariant cache.cells[..] == MoveIn(out, act, j) && cache.head <= cache.cells.Length
    {
      if act[j] {
        cache.SeqRm(j, -1, -1);
        cache.SeqCp(Temp(j), j, -1, -1);
        cache.SeqRm(Temp(j), -1, -1);
      }
    }
  }

  /** Every decoder tag, and no temporary one. */
  predicate PlainTags(c: Cell, n: nat) {
    c.pos < INT32_MAX && CellOk(c) && forall t :: t in c.tags ==> 0 <= t < n
  }

  lemma {:induction false} CopyOutCell(cells: seq<Cell>, act: seq<bool>, src: seq<nat>, n: nat, i: nat)
    requires n <= |act| == |src| && |act| <= MAX_DECODERS && i < |cells| && PlainTags(cells[i], |act|)
    requires forall j :: 0 <= j < |act| && act[j] ==> src[j] < |act|
    ensures var c := CopyOut(cells, act, src, n)[i];
            && c.pos == cells[i].pos && CellOk(c)
            && (forall t :: t < MAX_DECODERS ==> (t in c.tags <==> t in cells[i].tags))
            && (forall j :: 0 <= j ==> (Temp(j) in c.tags <==> j < n && act[j] && src[j] in cells[i].tags))
  {
    if n > 0 { CopyOutCell(cells, act, src, n - 1, i); }
  }

  /** One decoder's rm, cp back, rm of the temporary tag, on one cell. */
  function MoveCell(c: Cell, j: nat): Cell {
    RmCell(CpCell(RmCell(c, j, -1, -1), Temp(j), j, -1, -1), Temp(j), -1, -1)
  }

  lemma MoveCellMeans(c: Cell, j: nat)
    requires j < MAX_DECODERS && CellOk(c) && c.pos < INT32_MAX
    ensures var r := MoveCell(c, j);
            && CellOk(r) && r.pos < INT32_MAX && (r.tags != {} ==> r.pos == c.pos)
            && (forall t :: t != j && t != Temp(j) ==> (t in r.tags <==> t in c.tags))
            && (j in r.tags <==> Temp(j) in c.tags)
            && Temp(j) !in r.tags
  {
  }

  lemma {:induction false} MoveInCell(cells: seq<Cell>, act: seq<bool>, n: nat, i: nat)
    requires n <= |act| <= MAX_DECODERS && i < |cells| && CellOk(cells[i]) && cells[i].pos < INT32_MAX
    ensures var c := MoveIn(cells, act, n)[i];
            && CellOk(c) && c.pos < INT32_MAX && (c.tags != {} ==> c.pos == cells[i].pos)
            && (forall t :: 0 <= t < MAX_DECODERS ==>
                  (t in c.tags <==> if t < n && act[t] then Temp(t) in cells[i].tags else t in cells[i].tags))
            && (forall j :: 0 <= j ==>
                  (Temp(j) in c.tags <==> !(j < n && act[j]) && Temp(j) in cells[i].tags))
            && (forall t :: t < 0 ==> (t in c.tags <==> t in cells[i].tags))
  {
    if n > 0 {
      MoveInCell(cells, act, n - 1, i);
      if act[n - 1] { MoveCellMeans(MoveIn(cells, act, n - 1)[i], n - 1); }
    }
  }

  /** The shuffle is a simultaneous assignment: each active decoder ends with exactly the cells
      its source had before, every other decoder keeps its own, and no temporary tag is left. */
  lemma ShuffleAssigns(cells: seq<Cell>, act: seq<bool>, src: seq<nat>, i: nat)
    requires |act| == |src| && |act| <= MAX_DECODERS && i < |cells| && PlainTags(cells[i], |act|)
    requires forall j :: 0 <= j < |act| && act[j] ==> src[j] < |act|
    ensures var c := Shuffle(cells, act, src)[i];
            && PlainTags(c, |act|)
            && (c.tags != {} ==> c.pos == cells[i].pos)
            && (forall j :: 0 <= j < |act| ==> (j in c.tags <==> (if act[j] then src[j] else j) in cells[i].tags))
  {
    var n := |act|;
    var out := CopyOut(cells, act, src, n);
    CopyOutCell(cells, act, src, n, i);
    MoveInCell(out, act, n, i);
    var c := Shuffle(cells, act, src)[i];
    forall t | t in c.tags ensures 0 <= t < n {
      assert t == Temp(t - MAX_DECODERS);
    }
  }

  // ---- the state of a run ----

  /** `held` is the history the cache keeps for the decoder: all of prompt and tokens while it is
      active. */
  datatype Decoder = Decoder(active: bool, tokens: seq<int>, held: seq<int>)

  datatype State = State(cells: seq<Cell>, kv: seq<Kv>, decs: seq<Decoder>)

  /** After `steps` steps every decoder's cells carry its history, active decoders hold prompt
      and tokens, and only decoder tags are in use. */
  ghost predicate Inv(st: State, prompt: seq<int>, steps: nat) {
    && |st.decs| <= MAX_DECODERS
    && (forall i :: 0 <= i < |st.cells| ==> PlainTags(st.cells[i], |st.decs|))
    && (forall j :: 0 <= j < |st.decs| ==> Carries(st.cells, st.kv, j, st.decs[j].held))
    && (forall j :: 0 <= j < |st.decs| && st.decs[j].active ==>
          st.decs[j].held == prompt + st.decs[j].tokens && |st.decs[j].tokens| == steps)
  }

  // ---- start: prompt, then one copy per decoder ----

  function CopyPrompt(cells: seq<Cell>, n: nat): (r: seq<Cell>)
    ensures |r| == |cells|
  {
    if n <= 1 then cells else Cp(CopyPrompt(cells, n - 1), 0, n - 1, -1, -1)
  }

  lemma {:induction false} CopyPromptCell(cells: seq<Cell>, n: nat, i: nat)
    requires 1 <= n && i < |cells| && PlainTags(cells[i], 1)
    ensures var c := CopyPrompt(cells, n)[i];
            && c.pos == cells[i].pos && CellOk(c)
            && forall t :: t in c.tags <==> 0 <= t < n && 0 in cells[i].tags
  {
    if n > 1 { CopyPromptCell(cells, n - 1, i); }
  }

  function StartState(size: nat, kv: seq<Kv>, pad: nat, prompt: seq<int>, n: nat): State
    requires |prompt| <= size == |kv| && pad > 0
  {
    var cells := Fill(seq(size, _ => FREE), 0, PromptBatch(prompt));
    State(CopyPrompt(cells, n), Computed(cells, kv, pad, 0, PromptBatch(prompt), |prompt|),
          seq(n, _ => Decoder(true, [], prompt)))
  }

  lemma StartHolds(size: nat, kv: seq<Kv>, pad: nat, prompt: seq<int>, n: nat)
    requires |prompt| <= size == |kv| && pad > 0 && 1 <= n <= MAX_DECODERS && |prompt| < INT32_MAX
    ensures Inv(StartState(size, kv, pad, prompt, n), prompt, 0)
  {
    var cells := Fill(seq(size, _ => FREE), 0, PromptBatch(prompt));
    var st := StartState(size, kv, pad, prompt, n);
    PromptCarries(cells, kv, pad, prompt);
    forall i | 0 <= i < size ensures PlainTags(cells[i], 1) && PlainTags(st.cells[i], n) {
      assert CellOk(cells[i]);
      CopyPromptCell(cells, n, i);
    }
    forall j | 0 <= j < n ensures Carries(st.cells, st.kv, j, prompt) {
      forall i | 0 <= i < size
        ensures (j in st.cells[i].tags <==> 0 in cells[i].tags) && st.cells[i].pos == cells[i].pos
      {
        CopyPromptCell(cells, n, i);
      }
      CarriesRenamed(cells, st.kv, 0, st.cells, j, prompt);
    }
  }

  // ---- one iteration of the loop ----

  /** What one iteration leaves open: whether it is a beam step, which decoder's candidate each
      decoder takes, the sampled tokens, and who goes on. */
  datatype Choice = Choice(beam: bool, src: seq<nat>, tok: seq<int>, stay: seq<bool>, head: nat)

  function Active(decs: seq<Decoder>): (r: seq<bool>)
    ensures |r| == |decs| && forall j :: 0 <= j < |r| ==> r[j] == decs[j].active
  {
    seq(|decs|, j requires 0 <= j < |decs| => decs[j].active)
  }

  /** Greedy decoders continue themselves; beam decoders take a candidate of an active one. */
  ghost predicate ChoiceOk(st: State, c: Choice) {
    && |c.src| == |c.tok| == |c.stay| == |st.decs|
    && forall j :: 0 <= j < |st.decs| && st.decs[j].active ==>
         c.src[j] < |st.decs| && st.decs[c.src[j]].active && (!c.beam ==> c.src[j] == j)
  }

  /** Sampling, the candidate assignment with its cache shuffle, and the status update. */
  function Sampled(st: State, c: Choice): (r: State)
    requires |c.src| == |c.tok| == |c.stay| == |st.decs|
    requires forall j :: 0 <= j < |st.decs| && st.decs[j].active ==> c.src[j] < |st.decs|
  {
    State(if c.beam then Shuffle(st.cells, Active(st.decs), c.src) else st.cells,
          st.kv,
          seq(|st.decs|, j requires 0 <= j < |st.decs| =>
            if st.decs[j].active then
              Decoder(c.stay[j], st.decs[c.src[j]].tokens + [c.tok[j]], st.decs[c.src[j]].held)
            else st.decs[j]))
  }

  /** The batch for the next logits: the last token of every decoder that goes on. */
  function BatchOf(decs: seq<Decoder>, past: int, n: nat): seq<Entry>
    requires n <= |decs|
  {
    if n == 0 then []
    else
      BatchOf(decs, past, n - 1)
      + if decs[n - 1].active && |decs[n - 1].tokens| > 0
        then [Entry(decs[n - 1].tokens[|decs[n - 1].tokens| - 1], past, n - 1)] else []
  }

  function Decoded(st: State, pad: nat, head: nat, past: int): State
    requires pad > 0 && |st.kv| == |st.cells| && head + |BatchOf(st.decs, past, |st.decs|)| <= |st.cells|
  {
    var batch := BatchOf(st.decs, past, |st.decs|);
    var cells := Fill(st.cells, head, batch);
    State(cells, Computed(cells, st.kv, pad, head, batch, |batch|),
          seq(|st.decs|, j requires 0 <= j < |st.decs| =>
            if st.decs[j].active && |st.decs[j].tokens| > 0
            then st.decs[j].(held := st.decs[j].held + [st.decs[j].tokens[|st.decs[j].tokens| - 1]])
            else st.decs[j]))
  }

  /** One iteration that finds a slot. */
  ghost predicate Next(st: State, st': State, prompt: seq<int>, pad: nat, steps: nat)
    requires pad > 0
  {
    exists c :: NextBy(st, st', prompt, pad, steps, c)
  }

  ghost predicate NextBy(st: State, st': State, prompt: seq<int>, pad: nat, steps: nat, c: Choice)
    requires pad > 0
  {
    && ChoiceOk(st, c) && |st.kv| == |st.cells| && |prompt| + steps < INT32_MAX
    && var mid := Sampled(st, c);
       var batch := BatchOf(mid.decs, |prompt| + steps, |mid.decs|);
       && FreeRun(mid.cells, c.head, |batch|)
       && st' == Decoded(mid, pad, c.head, |prompt| + steps)
  }

  /** The shuffled cache carries, for every decoder, the history it is assigned. */
  lemma SampledCarries(st: State, c: Choice, prompt: seq<int>, steps: nat, j: nat)
    requires Inv(st, prompt, steps) && ChoiceOk(st, c) && j < |st.decs|
    ensures Carries(Sampled(st, c).cells, st.kv, j, Sampled(st, c).decs[j].held)
  {
    var mid := Sampled(st, c);
    if c.beam {
      var act := Active(st.decs);
      var src := if act[j] then c.src[j] else j;
      forall i | 0 <= i < |st.cells|
        ensures (j in mid.cells[i].tags <==> src in st.cells[i].tags)
                && (src in st.cells[i].tags ==> mid.cells[i].pos == st.cells[i].pos)
      {
        ShuffleAssigns(st.cells, act, c.src, i);
      }
      CarriesRenamed(st.cells, st.kv, src, mid.cells, j, st.decs[src].held);
    }
  }

  lemma SampledTags(st: State, c: Choice, prompt: seq<int>, steps: nat)
    requires Inv(st, prompt, steps) && ChoiceOk(st, c)
    ensures var mid := Sampled(st, c);
            forall i :: 0 <= i < |mid.cells| ==> PlainTags(mid.cells[i], |st.decs|)
  {
    if c.beam {
      forall i | 0 <= i < |st.cells| ensures PlainTags(Sampled(st, c).cells[i], |st.decs|) {
        ShuffleAssigns(st.cells, Active(st.decs), c.src, i);
      }
    }
  }

  lemma {:induction false} BatchOfIs(decs: seq<Decoder>, past: int, n: nat)
    requires n <= |decs| && past >= 0
    ensures var b := BatchOf(decs, past, n);
            && StepBatch(b, past)
            && AllInBatch(decs, b, n)
            && (forall j :: 0 <= j < n && decs[j].active && |decs[j].tokens| > 0 ==> HasEntry(b, j))
  {
    if n == 0 {
      assert BatchOf(decs, past, 0) == [];
    } else {
      BatchOfIs(decs, past, n - 1);
      hide InBatch, StepBatch, HasEntry, BatchOf, AllInBatch;
      var b, b' := BatchOf(decs, past, n - 1), BatchOf(decs, past, n);
      AllInBatchMore(decs, b, n - 1);
      if decs[n - 1].active && |decs[n - 1].tokens| > 0 {
        LastInBatch(decs, past, n);
        AllBelow(decs, b, n - 1);
        StepBatchGrows(b, b'[|b|], past);
        AllInBatchPush(decs, b, b'[|b|], n);
      } else {
        LastNotInBatch(decs, past, n);
      }
      forall j | 0 <= j < n && decs[j].active && |decs[j].tokens| > 0 ensures HasEntry(b', j) {
        if j < n - 1 { HasStill(b, b', j); } else { LastIsIn(b', |b|, j); }
      }
    }
  }

  /** Entries of active decoders below `n` with their last tokens. */
  predicate AllInBatch(decs: seq<Decoder>, b: seq<Entry>, n: nat) {
    forall k :: 0 <= k < |b| ==> InBatch(decs, b[k]) && b[k].tag < n
  }

  lemma AllInBatchMore(decs: seq<Decoder>, b: seq<Entry>, n: nat)
    requires AllInBatch(decs, b, n)
    ensures AllInBatch(decs, b, n + 1)
  {
  }

  lemma AllBelow(decs: seq<Decoder>, b: seq<Entry>, n: nat)
    requires AllInBatch(decs, b, n)
    ensures forall k :: 0 <= k < |b| ==> b[k].tag < n
  {
  }

  lemma AllInBatchPush(decs: seq<Decoder>, b: seq<Entry>, e: Entry, n: nat)
    requires AllInBatch(decs, b, n) && InBatch(decs, e) && e.tag < n
    ensures AllInBatch(decs, b + [e], n)
  {
  }

  lemma StepBatchGrows(b: seq<Entry>, e: Entry, past: nat)
    requires StepBatch(b, past) && e.pos == past && forall k :: 0 <= k < |b| ==> b[k].tag < e.tag
    ensures StepBatch(b + [e], past)
  {
  }

  lemma LastInBatch(decs: seq<Decoder>, past: int, n: nat)
    requires 0 < n <= |decs| && decs[n - 1].active && |decs[n - 1].tokens| > 0
    ensures var b, b' := BatchOf(decs, past, n - 1), BatchOf(decs, past, n);
            && |b'| == |b| + 1 && b'[|b|].tag == n - 1 && b'[|b|].pos == past && b' == b + [b'[|b|]] && InBatch(decs, b'[|b|])
  {
  }

  lemma LastNotInBatch(decs: seq<Decoder>, past: int, n: nat)
    requires 0 < n <= |decs| && !(decs[n - 1].active && |decs[n - 1].tokens| > 0)
    ensures BatchOf(decs, past, n) == BatchOf(decs, past, n - 1)
  {
  }

  lemma HasStill(b: seq<Entry>, b': seq<Entry>, j: nat)
    requires b <= b' && HasEntry(b, j)
    ensures HasEntry(b', j)
  {
    var k :| 0 <= k < |b| && b[k].tag == j;
    assert b'[k].tag == j;
  }

  lemma LastIsIn(b: seq<Entry>, k: nat, j: nat)
    requires k < |b| && b[k].tag == j
    ensures HasEntry(b, j)
  {
  }

  predicate InBatch(decs: seq<Decoder>, e: Entry) {
    && 0 <= e.tag < |decs| && decs[e.tag].active && |decs[e.tag].tokens| > 0
    && e.token == decs[e.tag].tokens[|decs[e.tag].tokens| - 1]
  }

  predicate HasEntry(b: seq<Entry>, j: nat) {
    exists k :: 0 <= k < |b| && b[k].tag == j
  }

  lemma DecodedCarries(mid: State, pad: nat, head: nat, past: nat, j: nat)
    requires pad > 0 && CellsOk(mid.cells) && |mid.kv| == |mid.cells| && j < |mid.decs|
    requires var batch := BatchOf(mid.decs, past, |mid.decs|); FreeRun(mid.cells, head, |batch|)
    requires Carries(mid.cells, mid.kv, j, mid.decs[j].held)
    requires mid.decs[j].active ==> |mid.decs[j].held| == past && |mid.decs[j].tokens| > 0
    ensures var r := Decoded(mid, pad, head, past); Carries(r.cells, r.kv, j, r.decs[j].held)
  {
    hide Carries, BatchOf, Fill, CellsOk;
    var batch := BatchOf(mid.decs, past, |mid.decs|);
    var r := Decoded(mid, pad, head, past);
    BatchOfIs(mid.decs, past, |mid.decs|);
    if mid.decs[j].active {
      assert HasEntry(batch, j);
      var k :| 0 <= k < |batch| && batch[k].tag == j;
      assert InBatch(mid.decs, batch[k]);
      StepCarries(mid.cells, mid.kv, pad, head, batch, k, mid.decs[j].held);
    } else {
      forall k | 0 <= k < |batch| ensures batch[k].tag != j {
        assert InBatch(mid.decs, batch[k]);
      }
      FillKeepsOthers(mid.cells, mid.kv, r.kv, head, batch, j, mid.decs[j].held);
    }
  }

  lemma DecodedTags(mid: State, pad: nat, head: nat, past: nat)
    requires pad > 0 && |mid.kv| == |mid.cells| && past < INT32_MAX
    requires forall i :: 0 <= i < |mid.cells| ==> PlainTags(mid.cells[i], |mid.decs|)
    requires FreeRun(mid.cells, head, |BatchOf(mid.decs, past, |mid.decs|)|)
    ensures var r := Decoded(mid, pad, head, past);
            forall i :: 0 <= i < |r.cells| ==> PlainTags(r.cells[i], |mid.decs|)
  {
    var batch := BatchOf(mid.decs, past, |mid.decs|);
    BatchOfIs(mid.decs, past, |mid.decs|);
    forall i | 0 <= i < |mid.cells| ensures PlainTags(Decoded(mid, pad, head, past).cells[i], |mid.decs|) {
      assert PlainTags(mid.cells[i], |mid.decs|);
      if head <= i < head + |batch| { assert InBatch(mid.decs, batch[i - head]); }
    }
  }

  /** One iteration, greedy or beam, keeps the invariant. */
  lemma NextKeepsInv(st: State, st': State, prompt: seq<int>, pad: nat, steps: nat)
    requires pad > 0 && Inv(st, prompt, steps) && Next(st, st', prompt, pad, steps)
    ensures Inv(st', prompt, steps + 1)
  {
    var c :| NextBy(st, st', prompt, pad, steps, c);
    NextCells(st, st', prompt, pad, steps, c);
    forall j | 0 <= j < |st'.decs| && st'.decs[j].active
      ensures st'.decs[j].held == prompt + st'.decs[j].tokens && |st'.decs[j].tokens| == steps + 1
    {
      SampledHeld(st, c, prompt, steps, j);
    }
  }

  lemma NextCells(st: State, st': State, prompt: seq<int>, pad: nat, steps: nat, c: Choice)
    requires pad > 0 && Inv(st, prompt, steps) && NextBy(st, st', prompt, pad, steps, c)
    ensures |st'.decs| == |st.decs|
    ensures forall i :: 0 <= i < |st'.cells| ==> PlainTags(st'.cells[i], |st.decs|)
    ensures forall j :: 0 <= j < |st.decs| ==> Carries(st'.cells, st'.kv, j, st'.decs[j].held)
  {
    hide Inv, Carries, PlainTags, BatchOf;
    var mid := Sampled(st, c);
    SampledTags(st, c, prompt, steps);
    DecodedTags(mid, pad, c.head, |prompt| + steps);
    forall j | 0 <= j < |st.decs| ensures Carries(st'.cells, st'.kv, j, st'.decs[j].held) {
      NextCarries(st, st', prompt, pad, steps, c, j);
    }
  }

  lemma NextCarries(st: State, st': State, prompt: seq<int>, pad: nat, steps: nat, c: Choice, j: nat)
    requires pad > 0 && Inv(st, prompt, steps) && NextBy(st, st', prompt, pad, steps, c) && j < |st.decs|
    ensures |st'.decs| == |st.decs| && Carries(st'.cells, st'.kv, j, st'.decs[j].held)
  {
    hide Inv, Carries, PlainTags, BatchOf, CellOk;
    var mid := Sampled(st, c);
    SampledTags(st, c, prompt, steps);
    forall i | 0 <= i < |mid.cells| ensures CellOk(mid.cells[i]) {
      PlainIsOk(mid.cells[i], |st.decs|);
    }
    SampledCarries(st, c, prompt, steps, j);
    SampledHeld(st, c, prompt, steps, j);
    DecodedCarries(mid, pad, c.head, |prompt| + steps, j);
  }

  lemma PlainIsOk(c: Cell, n: nat)
    requires PlainTags(c, n)
    ensures CellOk(c)
  {
  }

  lemma SampledHeld(st: State, c: Choice, prompt: seq<int>, steps: nat, j: nat)
    requires Inv(st, prompt, steps) && ChoiceOk(st, c) && j < |st.decs|
    ensures var d := Sampled(st, c).decs[j];
            d.active ==> && |d.tokens| == steps + 1 && |d.held| == |prompt| + steps
                         && d.held + [d.tokens[steps]] == prompt + d.tokens
  {
  }

  ghost predicate IsRun(run: seq<State>, prompt: seq<int>, pad: nat)
    requires pad > 0
  {
    forall k :: 0 < k < |run| ==> Next(run[k - 1], run[k], prompt, pad, k - 1)
  }

  /** Over every run: whatever is sampled, assigned and finished, the shared cache restricted to a
      decoder is the private cache of that decoder's history. */
  lemma {:induction false} CacheAgreesForever(run: seq<State>, prompt: seq<int>, pad: nat, size: nat, kv: seq<Kv>, n: nat, k: nat)
    requires pad > 0 && IsRun(run, prompt, pad) && k < |run|
    requires |prompt| <= size == |kv| && 1 <= n <= MAX_DECODERS && |prompt| < INT32_MAX
    requires run[0] == StartState(size, kv, pad, prompt, n)
    ensures Inv(run[k], prompt, k)
  {
    if k == 0 {
      StartHolds(size, kv, pad, prompt, n);
    } else {
      CacheAgreesForever(run, prompt, pad, size, kv, n, k - 1);
      NextKeepsInv(run[k - 1], run[k], prompt, pad, k - 1);
    }
  }

  predicate BothAdmitted(cells: seq<Cell>, pad: nat, e: Entry, i: int, k: int)
    requires pad > 0
  {
    0 <= i < |cells| && 0 <= k < |cells| && Admits(cells, pad, e, i) && Admits(cells, pad, e, k)
  }

  /** In every reachable state the mask of an active decoder's next token admits exactly one cell
      for each earlier position, and nothing else. */
  lemma MaskAdmitsHistory(st: State, prompt: seq<int>, steps: nat, pad: nat, j: nat, p: nat)
    requires pad > 0 && Inv(st, prompt, steps) && j < |st.decs| && st.decs[j].active
    ensures var e := Entry(0, |prompt| + steps, j);
            && (p < |prompt| + steps ==> exists i :: 0 <= i < |st.cells| && Admits(st.cells, pad, e, i) && st.cells[i].pos == p)
            && (forall i :: 0 <= i < |st.cells| && Admits(st.cells, pad, e, i) ==> 0 <= st.cells[i].pos < |prompt| + steps)
            && (forall i, k :: BothAdmitted(st.cells, pad, e, i, k) && st.cells[i].pos == st.cells[k].pos ==> i == k)
  {
    var e := Entry(0, |prompt| + steps, j);
    assert Carries(st.cells, st.kv, j, st.decs[j].held);
    assert CellsOk(st.cells) by {
      forall i | 0 <= i < |st.cells| ensures CellOk(st.cells[i]) { assert PlainTags(st.cells[i], |st.decs|); }
    }
    forall i | 0 <= i < |st.cells| ensures Admits(st.cells, pad, e, i) ==> Tagged(st.cells, j, i) {
    }
    if p < |prompt| + steps {
      assert HasPos(st.cells, j, p);
      var i :| Tagged(st.cells, j, i) && st.cells[i].pos == p;
      MaskIsExact(st.cells, pad, e, i);
    }
    forall i, k | BothAdmitted(st.cells, pad, e, i, k) && st.cells[i].pos == st.cells[k].pos
      ensures i == k
    {
      assert SamePos(st.cells, j, i, k);
    }
  }
}
