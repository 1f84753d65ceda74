/** Whole decoding runs on the shared cache: prompt, greedy steps and beam steps.  The cache,
    masked per decoder, is the private history each decoder would have kept for itself. */
module BeamRun {
  import opened KvCache

  const MAX_DECODERS: nat := 8

  /** Contents of one cell's K/V slot: it depends on the token, its position and the contents of
      the earlier cells attended to. */
  datatype Kv = Nothing | Kv(token: int, pos: int, seen: set<Kv>)

  /** The simple thing: the K/V contents of the last token of a private history. */
  function RefKv(h: seq<int>): Kv
    requires |h| > 0
    decreases |h|
  {
    Kv(h[|h| - 1], |h| - 1, set p | 1 <= p < |h| :: RefKv(h[..p]))
  }

  /** A cell that belongs to sequence `id`. */
  predicate Tagged(cells: seq<Cell>, id: int, i: int) { 0 <= i < |cells| && id in cells[i].tags }

  predicate CellHolds(cells: seq<Cell>, kv: seq<Kv>, h: seq<int>, i: int)
    requires 0 <= i < |cells| == |kv|
  {
    0 <= cells[i].pos < |h| && kv[i] == RefKv(h[..cells[i].pos + 1])
  }

  ghost predicate HasPos(cells: seq<Cell>, id: int, p: int) {
    exists i :: Tagged(cells, id, i) && cells[i].pos == p
  }

  predicate SamePos(cells: seq<Cell>, id: int, i: int, k: int) {
    Tagged(cells, id, i) && Tagged(cells, id, k) && cells[i].pos == cells[k].pos
  }

  ghost predicate OnePerPos(cells: seq<Cell>, id: int) {
    forall i, k :: SamePos(cells, id, i, k) ==> i == k
  }

  /** The cells tagged `id` at positions below `|h|` hold what a private cache for `h` would. */
  ghost predicate CarriesUpTo(cells: seq<Cell>, kv: seq<Kv>, id: int, h: seq<int>) {
    && |kv| == |cells|
    && (forall i :: Tagged(cells, id, i) && cells[i].pos < |h| ==> CellHolds(cells, kv, h, i))
    && (forall p :: 0 <= p < |h| ==> HasPos(cells, id, p))
  }

  /** The cells tagged `id` carry history `h`: one cell for every position, holding what a
      private cache would hold there, and no others. */
  ghost predicate Carries(cells: seq<Cell>, kv: seq<Kv>, id: int, h: seq<int>) {
    && CarriesUpTo(cells, kv, id, h) && OnePerPos(cells, id)
    && (forall i :: Tagged(cells, id, i) ==> 0 <= cells[i].pos < |h|)
  }

  // ---- decoding a batch ----

  /** The contents computed for an entry: what the mask admits, the entry's own cell aside. */
  function Compute(cells: seq<Cell>, kv: seq<Kv>, pad: nat, e: Entry, own: nat): Kv
    requires pad > 0 && |kv| == |cells|
  {
    Kv(e.token, e.pos, set i | 0 <= i < |cells| && i != own && Admits(cells, pad, e, i) :: kv[i])
  }

  /** Contents of the first `n` entries of a batch that was entered at `head`. */
  function Computed(cells: seq<Cell>, kv: seq<Kv>, pad: nat, head: nat, batch: seq<Entry>, n: nat): (r: seq<Kv>)
    requires pad > 0 && |kv| == |cells| && head + |batch| <= |cells| && n <= |batch|
    ensures |r| == |kv|
    ensures forall i :: 0 <= i < |kv| && !(head <= i < head + n) ==> r[i] == kv[i]
  {
    if n == 0 then kv
    else
      var r := Computed(cells, kv, pad, head, batch, n - 1);
      r[head + n - 1 := Compute(cells, r, pad, batch[n - 1], head + n - 1)]
  }

  /** One entry extends one history by its token. */
  lemma EntryExtends(cells: seq<Cell>, kv: seq<Kv>, pad: nat, e: Entry, own: nat, h: seq<int>)
    requires pad > 0 && CellsOk(cells) && OnePerPos(cells, e.tag) && CarriesUpTo(cells, kv, e.tag, h)
    requires Tagged(cells, e.tag, own) && cells[own].pos == e.pos == |h|
    ensures CarriesUpTo(cells, kv[own := Compute(cells, kv, pad, e, own)], e.tag, h + [e.token])
  {
    var h' := h + [e.token];
    var kv' := kv[own := Compute(cells, kv, pad, e, own)];
    SeenIsHistory(cells, kv, pad, e, own, h);
    assert h'[..|h'|] == h';
    forall i | Tagged(cells, e.tag, i) && cells[i].pos < |h'| ensures CellHolds(cells, kv', h', i) {
      if cells[i].pos == |h| {
        assert SamePos(cells, e.tag, i, own);
      } else {
        assert CellHolds(cells, kv, h, i);
        assert h'[..cells[i].pos + 1] == h[..cells[i].pos + 1];
      }
    }
    forall p | 0 <= p < |h'| ensures HasPos(cells, e.tag, p) {
      if p == |h| { assert Tagged(cells, e.tag, own); }
    }
  }

  lemma SeenIsHistory(cells: seq<Cell>, kv: seq<Kv>, pad: nat, e: Entry, own: nat, h: seq<int>)
    requires pad > 0 && CellsOk(cells) && OnePerPos(cells, e.tag) && CarriesUpTo(cells, kv, e.tag, h)
    requires Tagged(cells, e.tag, own) && cells[own].pos == e.pos == |h|
    ensures Compute(cells, kv, pad, e, own) == RefKv(h + [e.token])
  {
    var h' := h + [e.token];
    var seen := set i | 0 <= i < |cells| && i != own && Admits(cells, pad, e, i) :: kv[i];
    var past := set p | 1 <= p < |h'| :: RefKv(h'[..p]);
    forall x | x in seen ensures x in past {
      var i :| 0 <= i < |cells| && i != own && Admits(cells, pad, e, i) && x == kv[i];
      assert Tagged(cells, e.tag, i);
      assert !SamePos(cells, e.tag, i, own);
      assert CellHolds(cells, kv, h, i);
      assert h'[..cells[i].pos + 1] == h[..cells[i].pos + 1];
    }
    forall x | x in past ensures x in seen {
      var p :| 1 <= p < |h'| && x == RefKv(h'[..p]);
      assert HasPos(cells, e.tag, p - 1);
      var i :| Tagged(cells, e.tag, i) && cells[i].pos == p - 1;
      MaskIsExact(cells, pad, e, i);
      assert CellHolds(cells, kv, h, i);
      assert h'[..p] == h[..p];
      assert kv[i] == x;
    }
    assert seen == past;
  }

  lemma CarriesFrame(cells: seq<Cell>, kv: seq<Kv>, kv': seq<Kv>, id: int, h: seq<int>)
    requires CarriesUpTo(cells, kv, id, h) && |kv'| == |kv|
    requires forall i :: Tagged(cells, id, i) && cells[i].pos < |h| ==> kv'[i] == kv[i]
    ensures CarriesUpTo(cells, kv', id, h)
  {
    forall i | Tagged(cells, id, i) && cells[i].pos < |h| ensures CellHolds(cells, kv', h, i) {
      assert CellHolds(cells, kv, h, i);
    }
  }

  // ---- the prompt ----

  function PromptBatch(prompt: seq<int>): seq<Entry> {
    seq(|prompt|, k requires 0 <= k < |prompt| => Entry(prompt[k], k, 0))
  }

  lemma {:induction false} PromptComputes(cells: seq<Cell>, kv: seq<Kv>, pad: nat, prompt: seq<int>, n: nat)
    requires pad > 0 && |kv| == |cells| && |prompt| <= |cells| && n <= |prompt|
    requires cells == Fill(seq(|cells|, _ => FREE), 0, PromptBatch(prompt))
    ensures CarriesUpTo(cells, Computed(cells, kv, pad, 0, PromptBatch(prompt), n), 0, prompt[..n])
  {
    if n > 0 {
      PromptComputes(cells, kv, pad, prompt, n - 1);
      var r := Computed(cells, kv, pad, 0, PromptBatch(prompt), n - 1);
      EntryExtends(cells, r, pad, PromptBatch(prompt)[n - 1], n - 1, prompt[..n - 1]);
      assert prompt[..n] == prompt[..n - 1] + [prompt[n - 1]];
    }
  }

  /** Decoding the prompt on a cleared cache leaves sequence 0 carrying it. */
  lemma PromptCarries(cells: seq<Cell>, kv: seq<Kv>, pad: nat, prompt: seq<int>)
    requires pad > 0 && |kv| == |cells| && |prompt| <= |cells|
    requires cells == Fill(seq(|cells|, _ => FREE), 0, PromptBatch(prompt))
    ensures CellsOk(cells)
    ensures Carries(cells, Computed(cells, kv, pad, 0, PromptBatch(prompt), |prompt|), 0, prompt)
  {
    PromptComputes(cells, kv, pad, prompt, |prompt|);
    assert prompt[..|prompt|] == prompt;
  }

  // ---- a step: one new token for each of several sequences ----

  /** Distinct sequences, all at position `past`. */
  ghost predicate StepBatch(batch: seq<Entry>, past: nat) {
    && (forall k :: 0 <= k < |batch| ==> batch[k].pos == past)
    && (forall k, l :: 0 <= k < |batch| && 0 <= l < |batch| && batch[k].tag == batch[l].tag ==> k == l)
  }

  lemma FillTags(cells: seq<Cell>, head: nat, batch: seq<Entry>, id: int, i: int)
    requires CellsOk(cells) && FreeRun(cells, head, |batch|)
    ensures var r := Fill(cells, head, batch);
            Tagged(r, id, i) <==>
            (Tagged(cells, id, i) && !(head <= i < head + |batch|)) || (head <= i < head + |batch| && batch[i - head].tag == id)
    ensures Tagged(cells, id, i) ==> !(head <= i < head + |batch|) && Fill(cells, head, batch)[i] == cells[i]
  {
    if 0 <= i < |cells| { assert CellOk(cells[i]); }
  }

  lemma FillKeepsCarried(cells: seq<Cell>, kv: seq<Kv>, head: nat, batch: seq<Entry>, id: int, h: seq<int>)
    requires CellsOk(cells) && FreeRun(cells, head, |batch|) && StepBatch(batch, |h|) && Carries(cells, kv, id, h)
    ensures var r := Fill(cells, head, batch); CarriesUpTo(r, kv, id, h) && OnePerPos(r, id)
  {
    var r := Fill(cells, head, batch);
    forall i ensures Tagged(r, id, i) && r[i].pos < |h| ==> Tagged(cells, id, i) && r[i] == cells[i] {
      FillTags(cells, head, batch, id, i);
    }
    forall i | Tagged(r, id, i) && r[i].pos < |h| ensures CellHolds(r, kv, h, i) {
      assert CellHolds(cells, kv, h, i);
    }
    forall p | 0 <= p < |h| ensures HasPos(r, id, p) {
      assert HasPos(cells, id, p);
      var i :| Tagged(cells, id, i) && cells[i].pos == p;
      FillTags(cells, head, batch, id, i);
      assert Tagged(r, id, i);
    }
    forall i, k | SamePos(r, id, i, k) ensures i == k {
      FillTags(cells, head, batch, id, i);
      FillTags(cells, head, batch, id, k);
      if Tagged(cells, id, i) && Tagged(cells, id, k) { assert SamePos(cells, id, i, k); }
    }
  }

  /** A sequence with no entry in the batch carries what it carried. */
  lemma FillKeepsOthers(cells: seq<Cell>, kv: seq<Kv>, kv': seq<Kv>, head: nat, batch: seq<Entry>, id: int, h: seq<int>)
    requires CellsOk(cells) && FreeRun(cells, head, |batch|) && Carries(cells, kv, id, h)
    requires forall k :: 0 <= k < |batch| ==> batch[k].tag != id
    requires |kv'| == |kv| && forall i :: 0 <= i < |kv| && !(head <= i < head + |batch|) ==> kv'[i] == kv[i]
    ensures Carries(Fill(cells, head, batch), kv', id, h)
  {
    var r := Fill(cells, head, batch);
    forall i ensures Tagged(r, id, i) ==> Tagged(cells, id, i) && r[i] == cells[i] && kv'[i] == kv[i] {
      FillTags(cells, head, batch, id, i);
    }
    forall i | Tagged(r, id, i) && r[i].pos < |h| ensures CellHolds(r, kv', h, i) {
      assert CellHolds(cells, kv, h, i);
    }
    forall p | 0 <= p < |h| ensures HasPos(r, id, p) {
      assert HasPos(cells, id, p);
      var i :| Tagged(cells, id, i) && cells[i].pos == p;
      FillTags(cells, head, batch, id, i);
      assert Tagged(r, id, i);
    }
    forall i, k | SamePos(r, id, i, k) ensures i == k {
      assert SamePos(cells, id, i, k);
    }
  }

  lemma {:induction false} ComputedKeeps(cells: seq<Cell>, kv: seq<Kv>, pad: nat, head: nat, batch: seq<Entry>, n: nat, m: nat, i: nat)
    requires pad > 0 && |kv| == |cells| && head + |batch| <= |cells| && n <= m <= |batch|
    requires i < |kv| && !(head + n <= i < head + m)
    ensures Computed(cells, kv, pad, head, batch, m)[i] == Computed(cells, kv, pad, head, batch, n)[i]
    decreases m
  {
    if n < m { ComputedKeeps(cells, kv, pad, head, batch, n, m - 1, i); }
  }

  /** The sequence of entry `k` carries its history and the new token. */
  lemma StepCarries(cells: seq<Cell>, kv: seq<Kv>, pad: nat, head: nat, batch: seq<Entry>, k: nat, h: seq<int>)
    requires pad > 0 && CellsOk(cells) && FreeRun(cells, head, |batch|) && StepBatch(batch, |h|)
    requires k < |batch| && Carries(cells, kv, batch[k].tag, h)
    ensures var r := Fill(cells, head, batch);
            Carries(r, Computed(r, kv, pad, head, batch, |batch|), batch[k].tag, h + [batch[k].token])
  {
    var e, own := batch[k], head + k;
    var id, r := e.tag, Fill(cells, head, batch);
    FillKeepsOk(cells, head, batch);
    FillKeepsCarried(cells, kv, head, batch, id, h);
    forall i ensures Tagged(r, id, i) && i != own ==> !(head <= i < head + |batch|) {
      FillTags(cells, head, batch, id, i);
    }
    var mid := Computed(r, kv, pad, head, batch, k);
    CarriesFrame(r, kv, mid, id, h);
    EntryExtends(r, mid, pad, e, own, h);
    var done := Computed(r, kv, pad, head, batch, |batch|);
    var h' := h + [e.token];
    forall i | Tagged(r, id, i) && r[i].pos < |h'| ensures done[i] == mid[own := Compute(r, mid, pad, e, own)][i] {
      ComputedKeeps(r, kv, pad, head, batch, k + 1, |batch|, i);
      assert Computed(r, kv, pad, head, batch, k + 1) == mid[own := Compute(r, mid, pad, e, own)];
    }
    CarriesFrame(r, mid[own := Compute(r, mid, pad, e, own)], done, id, h');
    forall i | Tagged(r, id, i) ensures 0 <= r[i].pos < |h'| {
      FillTags(cells, head, batch, id, i);
    }
  }

  // ---- copying sequences ----

  /** The tags of each cell, after: sequence `dst` holds exactly what `src` held. */
  lemma CarriesRenamed(cells: seq<Cell>, kv: seq<Kv>, src: int, cells': seq<Cell>, dst: int, h: seq<int>)
    requires Carries(cells, kv, src, h) && |cells'| == |cells|
    requires forall i :: 0 <= i < |cells| ==> (dst in cells'[i].tags <==> src in cells[i].tags)
    requires forall i :: 0 <= i < |cells| && src in cells[i].tags ==> cells'[i].pos == cells[i].pos
    ensures Carries(cells', kv, dst, h)
  {
    forall i | Tagged(cells', dst, i) && cells'[i].pos < |h| ensures CellHolds(cells', kv, h, i) {
      assert Tagged(cells, src, i) && CellHolds(cells, kv, h, i);
    }
    forall p | 0 <= p < |h| ensures HasPos(cells', dst, p) {
      assert HasPos(cells, src, p);
      var i :| Tagged(cells, src, i) && cells[i].pos == p;
      assert Tagged(cells', dst, i);
    }
    forall i, k | SamePos(cells', dst, i, k) ensures i == k {
      assert SamePos(cells, src, i, k);
    }
    forall i | Tagged(cells', dst, i) ensures 0 <= cells'[i].pos < |h| {
      assert Tagged(cells, src, i);
    }
  }
}
