/** What the decoder makes of a data zone that was cut short. */
module Truncation {
  import opened Bytes
  import opened Wrappers
  import opened Schema

  lemma SlicesAgree(b: Buffer, k: nat, p: nat, w: nat)
    requires p + w <= k <= |b|
    ensures b[..k][p..p + w] == b[p..p + w]
    ensures UIntAt(b[..k], p, w) == UIntAt(b, p, w) && SIntAt(b[..k], p, w) == SIntAt(b, p, w)
  {
    SliceAgrees(b, k, p, w);
    UIntAtLocal(b[..k], b, p, w);
  }

  lemma SliceAgrees(b: Buffer, k: nat, p: nat, w: nat)
    requires p + w <= k <= |b|
    ensures b[..k][p..p + w] == b[p..p + w]
  {}

  // ------------------------------------------------------------------
  // Lockstep: what ends inside the cut is decoded identically
  // ------------------------------------------------------------------

  /**
   * If decoding `s` from the whole buffer leaves the cursor at or before `k`,
   * decoding it from the first `k` bytes does exactly the same: same value or
   * same failure, same partial list, same warnings, same cursor.
   */
  lemma {:induction false} Lockstep(s: Shape, b: Buffer, p: nat, k: nat)
    requires p <= k <= |b| && Decode(s, b, p).pos <= k
    ensures Decode(s, b[..k], p) == Decode(s, b, p)
    decreases s, 0, 0
  {
    match s
    case Tuple(items) => LockstepAll(items, b, p, k);
    case Counted(item, keeps) => LockstepCounted(item, keeps, b, p, k);
    case Flags(w, rules) => LockstepFlags(w, rules, b, p, k);
    case Repeated(w, rules) => LockstepRepeated(w, rules, b, p, k);
    case Block(kind, rules) => LockstepBlock(kind, rules, b, p, k);
    case _ => LockstepLeaf(s, b, p, k);
  }

  /** Shapes without parts. */
  ghost predicate Leaf(s: Shape) {
    s.UInt? || s.SInt? || s.Raw? || s.Skip? || s.Blob? || s.Ascii?
  }

  lemma LockstepLeaf(s: Shape, b: Buffer, p: nat, k: nat)
    requires Leaf(s) && p <= k <= |b| && Decode(s, b, p).pos <= k
    ensures Decode(s, b[..k], p) == Decode(s, b, p)
  {
    match s
    case Blob => LockstepBlob(b, p, k);
    case Ascii => LockstepAscii(b, p, k);
    case UInt(w) => LockstepUInt(w, b, p, k);
    case SInt(w) => LockstepSInt(w, b, p, k);
    case Raw(w) => LockstepRaw(w, b, p, k);
    case Skip(w) => LockstepSkip(w, b, p, k);
  }

  lemma LockstepUInt(w: nat, b: Buffer, p: nat, k: nat)
    requires p <= k <= |b| && Decode(UInt(w), b, p).pos <= k
    ensures Decode(UInt(w), b[..k], p) == Decode(UInt(w), b, p)
  {
    if |b| - p >= w {
      SlicesAgree(b, k, p, w);
    }
  }

  lemma LockstepSInt(w: nat, b: Buffer, p: nat, k: nat)
    requires p <= k <= |b| && Decode(SInt(w), b, p).pos <= k
    ensures Decode(SInt(w), b[..k], p) == Decode(SInt(w), b, p)
  {
    if |b| - p >= w {
      SlicesAgree(b, k, p, w);
    }
  }

  lemma LockstepRaw(w: nat, b: Buffer, p: nat, k: nat)
    requires p <= k <= |b| && Decode(Raw(w), b, p).pos <= k
    ensures Decode(Raw(w), b[..k], p) == Decode(Raw(w), b, p)
  {
    if |b| - p >= w {
      SliceAgrees(b, k, p, w);
    }
  }

  lemma LockstepSkip(w: nat, b: Buffer, p: nat, k: nat)
    requires p <= k <= |b| && Decode(Skip(w), b, p).pos <= k
    ensures Decode(Skip(w), b[..k], p) == Decode(Skip(w), b, p)
  {}

  lemma PrefixedAgrees(b: Buffer, c: Buffer, p: nat)
    requires p < |c| <= |b| && c == b[..|c|]
    ensures c[p] == b[p]
    ensures p + 1 + b[p] as nat <= |c| ==> c[p + 1..p + 1 + c[p] as nat] == b[p + 1..p + 1 + b[p] as nat]
  {}

  lemma LockstepBlob(b: Buffer, p: nat, k: nat)
    requires p <= k <= |b| && Decode(Blob, b, p).pos <= k
    ensures Decode(Blob, b[..k], p) == Decode(Blob, b, p)
  {
    if p < k {
      PrefixedAgrees(b, b[..k], p);
    }
  }

  lemma LockstepAscii(b: Buffer, p: nat, k: nat)
    requires p <= k <= |b| && Decode(Ascii, b, p).pos <= k
    ensures Decode(Ascii, b[..k], p) == Decode(Ascii, b, p)
  {
    if p < k {
      PrefixedAgrees(b, b[..k], p);
    }
  }

  lemma {:induction false} LockstepCounted(item: Shape, keeps: bool, b: Buffer, p: nat, k: nat)
    requires p <= k <= |b| && Decode(Counted(item, keeps), b, p).pos <= k
    ensures Decode(Counted(item, keeps), b[..k], p) == Decode(Counted(item, keeps), b, p)
    decreases item, 2, 0
  {
    if p < |b| && p < k {
      LockstepList(item, b[p] as nat, b, p + 1, k);
    }
  }

  lemma {:induction false} LockstepFlags(w: nat, rules: seq<Rule>, b: Buffer, p: nat, k: nat)
    requires p <= k <= |b| && Decode(Flags(w, rules), b, p).pos <= k
    ensures Decode(Flags(w, rules), b[..k], p) == Decode(Flags(w, rules), b, p)
    decreases rules, 3, 0
  {
    if |b| - p >= w {
      LockstepMasked(rules, w, b, p, k);
    }
  }

  lemma {:induction false} LockstepBlock(kind: BlockKind, rules: seq<Rule>, b: Buffer, p: nat, k: nat)
    requires p <= k <= |b| && Decode(Block(kind, rules), b, p).pos <= k
    ensures Decode(Block(kind, rules), b[..k], p) == Decode(Block(kind, rules), b, p)
    decreases rules, 3, 0
  {
    if |b| - p >= 4 {
      LockstepMasked(rules, 4, b, p, k);
    }
  }

  lemma {:induction false} LockstepMasked(rules: seq<Rule>, w: nat, b: Buffer, p: nat, k: nat)
    requires p + w <= |b| && p <= k <= |b|
    requires DecodeBits(rules, UIntAt(b, p, w), 0, b, p + w).pos <= k
    ensures UIntAt(b[..k], p, w) == UIntAt(b, p, w)
    ensures DecodeBits(rules, UIntAt(b, p, w), 0, b[..k], p + w) == DecodeBits(rules, UIntAt(b, p, w), 0, b, p + w)
    decreases rules, 2, 0
  {
    SlicesAgree(b, k, p, w);
    LockstepBits(rules, UIntAt(b, p, w), 0, b, p + w, k);
  }

  lemma {:induction false} LockstepRepeated(w: nat, rules: seq<Rule>, b: Buffer, p: nat, k: nat)
    requires p <= k <= |b| && Decode(Repeated(w, rules), b, p).pos <= k
    ensures Decode(Repeated(w, rules), b[..k], p) == Decode(Repeated(w, rules), b, p)
    decreases rules, 2, 0
  {
    if |b| - p > w {
      var mask, count := UIntAt(b, p, w), b[p + w] as nat;
      assert Decode(Repeated(w, rules), b, p).pos == DecodeRecords(rules, mask, count, b, p + w + 1).pos;
      SlicesAgree(b, k, p, w);
      LockstepRecords(rules, mask, count, b, p + w + 1, k);
    }
  }

  lemma {:induction false} LockstepAll(items: seq<Shape>, b: Buffer, p: nat, k: nat)
    requires p <= k <= |b| && DecodeAll(items, b, p).pos <= k
    ensures DecodeAll(items, b[..k], p) == DecodeAll(items, b, p)
    decreases items, 0, 0
  {
    if items != [] {
      Lockstep(items[0], b, p, k);
      if Decode(items[0], b, p).Good? {
        LockstepAll(items[1..], b, Decode(items[0], b, p).pos, k);
      }
    }
  }

  lemma {:induction false} LockstepList(item: Shape, n: nat, b: Buffer, p: nat, k: nat)
    requires p <= k <= |b| && DecodeList(item, n, b, p).pos <= k
    ensures DecodeList(item, n, b[..k], p) == DecodeList(item, n, b, p)
    decreases item, 1, n
  {
    if n > 0 {
      Lockstep(item, b, p, k);
      if Decode(item, b, p).Good? {
        LockstepList(item, n - 1, b, Decode(item, b, p).pos, k);
      }
    }
  }

  lemma {:induction false} LockstepRecords(rules: seq<Rule>, mask: nat, n: nat, b: Buffer, p: nat, k: nat)
    requires p <= k <= |b| && DecodeRecords(rules, mask, n, b, p).pos <= k
    ensures DecodeRecords(rules, mask, n, b[..k], p) == DecodeRecords(rules, mask, n, b, p)
    decreases rules, 1, n
  {
    if n > 0 {
      LockstepBits(rules, mask, 0, b, p, k);
      var f := DecodeBits(rules, mask, 0, b, p);
      if f.stop.None? {
        LockstepRecords(rules, mask, n - 1, b, f.pos, k);
      }
    }
  }

  /** Every bit whose cursor offset is within the cut is decoded identically. */
  lemma {:induction false} LockstepBits(rules: seq<Rule>, mask: nat, bit: nat, b: Buffer, p: nat, k: nat)
    requires p <= k <= |b| && bit <= |rules| && DecodeBits(rules, mask, bit, b, p).pos <= k
    ensures DecodeBits(rules, mask, bit, b[..k], p) == DecodeBits(rules, mask, bit, b, p)
    decreases rules, 0, |rules| - bit
  {
    if bit < |rules| {
      if Bit(mask, bit) && rules[bit].Field? {
        Lockstep(rules[bit].shape, b, p, k);
        var r := Decode(rules[bit].shape, b, p);
        if r.Good? {
          LockstepBits(rules, mask, bit + 1, b, r.pos, k);
        }
      } else {
        LockstepBits(rules, mask, bit + 1, b, p, k);
      }
    }
  }

  // ------------------------------------------------------------------
  // Straddling: what the cut goes through
  // ------------------------------------------------------------------

  /** No block that catches its own failures, at any depth. */
  ghost predicate Plain(s: Shape)
    decreases s, 0
  {
    match s
    case Tuple(items) => forall x :: x in items ==> Plain(x)
    case Counted(item, _) => Plain(item)
    case Flags(_, rules) => PlainRules(rules)
    case Repeated(_, rules) => PlainRules(rules)
    case Block(_, _) => false
    case _ => true
  }

  ghost predicate PlainRules(rules: seq<Rule>)
    decreases rules, 0
  {
    forall r :: r in rules && r.Field? ==> Plain(r.shape)
  }

  /** What a failed field left behind holds only complete items of what the whole buffer gives. */
  ghost predicate Leftover(cut: Option<Value>, whole: Outcome) {
    cut.Some? ==>
      && cut.value.Items?
      && match whole
         case Good(v, _, _) => v.Items? && cut.value.values <= v.values
         case Cut(w, _, _) => w.Some? && w.value.Items? && cut.value.values <= w.value.values
  }

  /** A plain field that the cut goes through fails; only complete items of a partial list survive. */
  lemma {:induction false} Straddle(s: Shape, b: Buffer, p: nat, k: nat)
    requires Plain(s) && p <= k <= |b| && Decode(s, b, p).pos > k
    ensures var r := Decode(s, b[..k], p); r.Cut? && Leftover(r.partial, Decode(s, b, p)) && r.pos <= k
    decreases s, 0, 0
  {
    match s
    case Tuple(items) => StraddleAll(items, b, p, k);
    case Counted(item, _) =>
      if p < k {
        StraddleList(item, b[p] as nat, b, p + 1, k);
      }
    case Flags(w, rules) => StraddleFlags(w, rules, b, p, k);
    case Repeated(w, rules) => StraddleRepeated(w, rules, b, p, k);
    case _ =>
  }

  lemma {:induction false} StraddleFlags(w: nat, rules: seq<Rule>, b: Buffer, p: nat, k: nat)
    requires PlainRules(rules) && p <= k <= |b| && Decode(Flags(w, rules), b, p).pos > k
    ensures var r := Decode(Flags(w, rules), b[..k], p); r.Cut? && r.partial.None?
    decreases rules, 2, 0
  {
    if k - p >= w {
      SlicesAgree(b, k, p, w);
      StraddleBits(rules, UIntAt(b, p, w), 0, b, p + w, k);
    }
  }

  lemma {:induction false} StraddleRepeated(w: nat, rules: seq<Rule>, b: Buffer, p: nat, k: nat)
    requires PlainRules(rules) && p <= k <= |b| && Decode(Repeated(w, rules), b, p).pos > k
    ensures var r := Decode(Repeated(w, rules), b[..k], p); r.Cut? && r.partial.None?
    decreases rules, 2, 0
  {
    if k - p > w {
      var mask, count := UIntAt(b, p, w), b[p + w] as nat;
      assert Decode(Repeated(w, rules), b, p).pos == DecodeRecords(rules, mask, count, b, p + w + 1).pos;
      SlicesAgree(b, k, p, w);
      StraddleRecords(rules, mask, count, b, p + w + 1, k);
    }
  }

  lemma {:induction false} StraddleAll(items: seq<Shape>, b: Buffer, p: nat, k: nat)
    requires (forall x :: x in items ==> Plain(x)) && p <= k <= |b| && DecodeAll(items, b, p).pos > k
    ensures !DecodeAll(items, b[..k], p).done
    decreases items, 0, 0
  {
    var r := Decode(items[0], b, p);
    if r.pos > k {
      Straddle(items[0], b, p, k);
    } else {
      Lockstep(items[0], b, p, k);
      StraddleAll(items[1..], b, r.pos, k);
    }
  }

  lemma {:induction false} StraddleList(item: Shape, n: nat, b: Buffer, p: nat, k: nat)
    requires Plain(item) && p <= k <= |b| && DecodeList(item, n, b, p).pos > k
    ensures var r := DecodeList(item, n, b[..k], p); !r.done && r.values <= DecodeList(item, n, b, p).values
    decreases item, 1, n
  {
    var r := Decode(item, b, p);
    if r.pos > k {
      Straddle(item, b, p, k);
    } else {
      Lockstep(item, b, p, k);
      StraddleList(item, n - 1, b, r.pos, k);
    }
  }

  lemma {:induction false} StraddleRecords(rules: seq<Rule>, mask: nat, n: nat, b: Buffer, p: nat, k: nat)
    requires PlainRules(rules) && p <= k <= |b| && DecodeRecords(rules, mask, n, b, p).pos > k
    ensures !DecodeRecords(rules, mask, n, b[..k], p).done
    decreases rules, 1, n
  {
    var f := DecodeBits(rules, mask, 0, b, p);
    if f.pos > k {
      StraddleBits(rules, mask, 0, b, p, k);
    } else {
      LockstepBits(rules, mask, 0, b, p, k);
      StraddleRecords(rules, mask, n - 1, b, f.pos, k);
    }
  }

  /** The entries decoded before a cut: complete ones, then at most one partial list of complete items. */
  ghost predicate CutEntries(cut: seq<Entry>, whole: seq<Entry>) {
    || cut <= whole
    || (&& 0 < |cut| <= |whole|
        && cut[..|cut| - 1] == whole[..|cut| - 1]
        && CutEntry(cut[|cut| - 1], whole[|cut| - 1]))
  }

  ghost predicate CutEntry(cut: Entry, whole: Entry) {
    && cut.bit == whole.bit
    && cut.value.Items? && whole.value.Items?
    && cut.value.values <= whole.value.values
  }

  ghost predicate CutScan(cut: Scan, whole: Scan) {
    && cut.stop.Some?
    && cut.unsupported <= whole.unsupported
    && CutEntries(cut.entries, whole.entries)
  }

  lemma {:induction false} StraddleBits(rules: seq<Rule>, mask: nat, bit: nat, b: Buffer, p: nat, k: nat)
    requires PlainRules(rules) && p <= k <= |b| && bit <= |rules| && DecodeBits(rules, mask, bit, b, p).pos > k
    ensures CutScan(DecodeBits(rules, mask, bit, b[..k], p), DecodeBits(rules, mask, bit, b, p))
    decreases rules, 0, |rules| - bit
  {
    if Bit(mask, bit) && rules[bit].Field? {
      var r := Decode(rules[bit].shape, b, p);
      assert rules[bit] in rules;
      if r.pos > k {
        Straddle(rules[bit].shape, b, p, k);
      } else {
        Lockstep(rules[bit].shape, b, p, k);
        StraddleBits(rules, mask, bit + 1, b, r.pos, k);
        CutEntriesCons(Entry(bit, r.value), DecodeBits(rules, mask, bit + 1, b[..k], r.pos).entries,
                       DecodeBits(rules, mask, bit + 1, b, r.pos).entries);
      }
    } else {
      StraddleBits(rules, mask, bit + 1, b, p, k);
    }
  }

  lemma CutEntriesCons(e: Entry, cut: seq<Entry>, whole: seq<Entry>)
    requires CutEntries(cut, whole)
    ensures CutEntries([e] + cut, [e] + whole)
  {
    if !(cut <= whole) {
      assert ([e] + cut)[..|cut|] == [e] + cut[..|cut| - 1];
      assert ([e] + whole)[..|cut|] == [e] + whole[..|cut| - 1];
    }
  }

  // ------------------------------------------------------------------
  // After the cut
  // ------------------------------------------------------------------

  /** Where a cut at `k` falls: while reading bit `bit`, which started at `at`, after the entries `before`. */
  datatype CutPoint = CutPoint(bit: nat, at: nat, before: seq<Entry>)

  /** The cut goes through the field of `c.bit`; all entries before it are the same in both scans. */
  ghost predicate CutsAt(c: CutPoint, rules: seq<Rule>, mask: nat, from: nat, b: Buffer, p: nat, k: nat)
    requires p <= k <= |b| && from <= |rules|
  {
    && from <= c.bit < |rules| && Bit(mask, c.bit) && rules[c.bit].Field?
    && c.at <= k < Decode(rules[c.bit].shape, b, c.at).pos
    && (forall e :: e in c.before ==> e.bit < c.bit)
    && DecodeBits(rules, mask, from, b, p).entries == c.before + DecodeBits(rules, mask, c.bit, b, c.at).entries
    && DecodeBits(rules, mask, from, b[..k], p).entries ==
       c.before + DecodeBits(rules, mask, c.bit, b[..k], c.at).entries
  }

  /** A b whose decoding reads past `k` is cut in exactly one field; everything before it survives. */
  lemma {:induction false} FindCut(rules: seq<Rule>, mask: nat, from: nat, b: Buffer, p: nat, k: nat)
    returns (c: CutPoint)
    requires p <= k <= |b| && from <= |rules| && DecodeBits(rules, mask, from, b, p).pos > k
    ensures CutsAt(c, rules, mask, from, b, p, k)
    decreases |rules| - from
  {
    if !Bit(mask, from) || !rules[from].Field? {
      c := FindCut(rules, mask, from + 1, b, p, k);
    } else {
      var shape := rules[from].shape;
      var r := Decode(shape, b, p);
      if r.pos > k {
        c := CutPoint(from, p, []);
      } else {
        Lockstep(shape, b, p, k);
        var d := FindCut(rules, mask, from + 1, b, r.pos, k);
        c := d.(before := [Entry(from, r.value)] + d.before);
        Assoc([Entry(from, r.value)], d.before, DecodeBits(rules, mask, d.bit, b, d.at).entries);
        Assoc([Entry(from, r.value)], d.before, DecodeBits(rules, mask, d.bit, b[..k], d.at).entries);
      }
    }
  }

  /** A plain field the cut goes through is absent, and so is everything after it. */
  lemma PlainFieldCut(c: CutPoint, rules: seq<Rule>, mask: nat, b: Buffer, k: nat)
    requires k <= |b| && c.bit < |rules| && c.at <= k && Bit(mask, c.bit) && rules[c.bit].Field?
    requires Plain(rules[c.bit].shape) && !rules[c.bit].shape.Counted?
    requires Decode(rules[c.bit].shape, b, c.at).pos > k
    ensures var r := DecodeBits(rules, mask, c.bit, b[..k], c.at); r.entries == [] && r.stop == Some(c.bit)
  {
    var s := rules[c.bit].shape;
    Straddle(s, b, c.at, k);
    assert Decode(s, b[..k], c.at).partial.None?;
  }

  /** Some set bit from `from` on still has a field to read. */
  ghost predicate MoreFields(rules: seq<Rule>, mask: nat, from: nat) {
    exists j :: from <= j < |rules| && Bit(mask, j) && rules[j].Field?
  }

  /** Only self-catching blocks of plain fields from `from` on. */
  ghost predicate OnlyBlocks(rules: seq<Rule>, from: nat) {
    forall j :: from <= j < |rules| && rules[j].Field? ==> rules[j].shape.Block? && PlainRules(rules[j].shape.rules)
  }

  /** Blocks are found in whatever bytes are left, as soon as a 4-byte mask fits. */
  lemma {:induction false} BlocksNeedMask(rules: seq<Rule>, mask: nat, from: nat, b: Buffer, p: nat)
    requires p <= |b| && from <= |rules| && OnlyBlocks(rules, from)
    ensures DecodeBits(rules, mask, from, b, p).entries != [] <==> |b| - p >= 4 && MoreFields(rules, mask, from)
    decreases |rules| - from
  {
    if from < |rules| && !(Bit(mask, from) && rules[from].Field?) {
      BlocksNeedMask(rules, mask, from + 1, b, p);
      assert MoreFields(rules, mask, from) <==> MoreFields(rules, mask, from + 1);
    }
  }

  /** What a scan makes of a nested block whose bytes start at `at` and are cut at `k`. */
  ghost predicate BrokenBlock(rules: seq<Rule>, mask: nat, bit: nat, b: Buffer, at: nat, k: nat)
    requires at <= k <= |b| && bit < |rules| && rules[bit].Field? && rules[bit].shape.Block?
  {
    var inner := rules[bit].shape.rules;
    var r := DecodeBits(rules, mask, bit, b[..k], at);
    if k - at < 4 then r.entries == [] && r.stop == Some(bit)
    else
      var m := UIntAt(b, at, 4);
      var cut := DecodeBits(inner, m, 0, b[..k], at + 4);
      var phantom := DecodeBits(rules, mask, bit + 1, b[..k], cut.pos);
      && CutScan(cut, DecodeBits(inner, m, 0, b, at + 4))
      && Stopped(rules[bit].shape.kind, cut.stop.value) in r.warnings
      && r.entries == [Entry(bit, Fields(m, cut.entries, cut.unsupported))] + phantom.entries
      && (phantom.entries != [] <==> k - cut.pos >= 4 && MoreFields(rules, mask, bit + 1))
  }

  lemma BlockCut(rules: seq<Rule>, mask: nat, bit: nat, b: Buffer, at: nat, k: nat)
    requires at <= k <= |b| && bit < |rules| && OnlyBlocks(rules, bit)
    requires Bit(mask, bit) && rules[bit].Field? && Decode(rules[bit].shape, b, at).pos > k
    ensures BrokenBlock(rules, mask, bit, b, at, k)
  {
    var inner := rules[bit].shape.rules;
    if k - at >= 4 {
      SlicesAgree(b, k, at, 4);
      StraddleBits(inner, UIntAt(b, at, 4), 0, b, at + 4, k);
      BlocksNeedMask(rules, mask, bit + 1, b[..k], DecodeBits(inner, UIntAt(b, at, 4), 0, b[..k], at + 4).pos);
      var cut := DecodeBits(inner, UIntAt(b, at, 4), 0, b[..k], at + 4);
      assert Stopped(rules[bit].shape.kind, cut.stop.value) in BlockWarnings(rules[bit].shape.kind, cut);
    }
  }

  // ------------------------------------------------------------------
  // What a failed read can leave behind
  // ------------------------------------------------------------------

  /** No read of this shape asks for more than four bytes. */
  ghost predicate Narrow(s: Shape)
    decreases s, 0
  {
    match s
    case UInt(w) => w <= 4
    case SInt(w) => w <= 4
    case Raw(w) => w <= 4
    case Skip(w) => w <= 4
    case Blob => false
    case Ascii => false
    case Tuple(items) => forall x :: x in items ==> Narrow(x)
    case Counted(item, _) => Narrow(item)
    case Flags(w, rules) => w <= 4 && NarrowRules(rules)
    case Repeated(w, rules) => w <= 4 && NarrowRules(rules)
    case Block(_, _) => true
  }

  ghost predicate NarrowRules(rules: seq<Rule>)
    decreases rules, 0
  {
    forall r :: r in rules && r.Field? ==> Narrow(r.shape)
  }

  /** A narrow field that fails leaves fewer than four bytes. */
  lemma {:induction false} NarrowCut(s: Shape, b: Buffer, p: nat)
    requires Narrow(s) && p <= |b| && Decode(s, b, p).Cut?
    ensures |b| - Decode(s, b, p).pos < 4
    decreases s, 0, 0
  {
    match s
    case Tuple(items) => NarrowCutAll(items, b, p);
    case Counted(item, _) => if p < |b| { NarrowCutList(item, b[p] as nat, b, p + 1); }
    case Flags(w, rules) => if |b| - p >= w { NarrowBits(rules, UIntAt(b, p, w), 0, b, p + w); }
    case Repeated(w, rules) =>
      if |b| - p > w {
        NarrowCutRecords(rules, UIntAt(b, p, w), b[p + w] as nat, b, p + w + 1);
      }
    case _ =>
  }

  lemma {:induction false} NarrowCutAll(items: seq<Shape>, b: Buffer, p: nat)
    requires (forall x :: x in items ==> Narrow(x)) && p <= |b| && !DecodeAll(items, b, p).done
    ensures |b| - DecodeAll(items, b, p).pos < 4
    decreases items, 0, 0
  {
    var r := Decode(items[0], b, p);
    if r.Cut? {
      NarrowCut(items[0], b, p);
    } else {
      NarrowCutAll(items[1..], b, r.pos);
    }
  }

  lemma {:induction false} NarrowCutList(item: Shape, n: nat, b: Buffer, p: nat)
    requires Narrow(item) && p <= |b| && !DecodeList(item, n, b, p).done
    ensures |b| - DecodeList(item, n, b, p).pos < 4
    decreases item, 1, n
  {
    var r := Decode(item, b, p);
    if r.Cut? {
      NarrowCut(item, b, p);
    } else {
      NarrowCutList(item, n - 1, b, r.pos);
    }
  }

  lemma {:induction false} NarrowCutRecords(rules: seq<Rule>, mask: nat, n: nat, b: Buffer, p: nat)
    requires NarrowRules(rules) && p <= |b| && !DecodeRecords(rules, mask, n, b, p).done
    ensures |b| - DecodeRecords(rules, mask, n, b, p).pos < 4
    decreases rules, 1, n
  {
    NarrowBits(rules, mask, 0, b, p);
    if DecodeBits(rules, mask, 0, b, p).stop.None? {
      NarrowCutRecords(rules, mask, n - 1, b, DecodeBits(rules, mask, 0, b, p).pos);
    }
  }

  lemma {:induction false} NarrowBits(rules: seq<Rule>, mask: nat, bit: nat, b: Buffer, p: nat)
    requires NarrowRules(rules) && p <= |b| && bit <= |rules|
    ensures DecodeBits(rules, mask, bit, b, p).stop.Some? ==> |b| - DecodeBits(rules, mask, bit, b, p).pos < 4
    decreases rules, 0, |rules| - bit
  {
    if bit < |rules| {
      if Bit(mask, bit) && rules[bit].Field? {
        var r := Decode(rules[bit].shape, b, p);
        assert rules[bit] in rules;
        if r.Cut? {
          NarrowCut(rules[bit].shape, b, p);
        } else {
          NarrowBits(rules, mask, bit + 1, b, r.pos);
        }
      } else {
        NarrowBits(rules, mask, bit + 1, b, p);
      }
    }
  }

  /** A scan that leaves four bytes behind its failed read stopped at a field that is not narrow. */
  lemma {:induction false} WideStop(rules: seq<Rule>, mask: nat, bit: nat, b: Buffer, p: nat)
    requires p <= |b| && bit <= |rules|
    requires DecodeBits(rules, mask, bit, b, p).stop.Some? && |b| - DecodeBits(rules, mask, bit, b, p).pos >= 4
    ensures var at := DecodeBits(rules, mask, bit, b, p).stop.value;
            bit <= at < |rules| && rules[at].Field? && !Narrow(rules[at].shape)
    decreases |rules| - bit
  {
    if Bit(mask, bit) && rules[bit].Field? {
      var r := Decode(rules[bit].shape, b, p);
      if r.Good? {
        WideStop(rules, mask, bit + 1, b, r.pos);
      } else if Narrow(rules[bit].shape) {
        NarrowCut(rules[bit].shape, b, p);
      }
    } else {
      WideStop(rules, mask, bit + 1, b, p);
    }
  }

  /** The inner scan of a block whose bytes start at `at`, from the first `k` bytes. */
  function InnerScan(rules: seq<Rule>, b: Buffer, at: nat, k: nat): Scan
    requires at + 4 <= k <= |b|
  {
    DecodeBits(rules, UIntAt(b, at, 4), 0, b[..k], at + 4)
  }

  /** Phantom blocks behind a cut block need the cut inside a field that is not narrow. */
  lemma PhantomNeedsWideRead(rules: seq<Rule>, mask: nat, bit: nat, b: Buffer, at: nat, k: nat)
    requires at <= k <= |b| && bit < |rules| && OnlyBlocks(rules, bit)
    requires Bit(mask, bit) && rules[bit].Field? && Decode(rules[bit].shape, b, at).pos > k
    requires |DecodeBits(rules, mask, bit, b[..k], at).entries| > 1
    ensures at + 4 <= k
    ensures var inner := rules[bit].shape.rules;
            var stop := InnerScan(inner, b, at, k).stop;
            stop.Some? && stop.value < |inner| && inner[stop.value].Field? && !Narrow(inner[stop.value].shape)
  {
    BlockCut(rules, mask, bit, b, at, k);
    WideStop(rules[bit].shape.rules, UIntAt(b, at, 4), 0, b[..k], at + 4);
  }

  // ------------------------------------------------------------------
  // Where the read that a cut goes through starts
  // ------------------------------------------------------------------

  /** In the whole buffer, the start of the first read of this field that ends behind `k`. */
  ghost function CutRead(s: Shape, b: Buffer, p: nat, k: nat): (at: nat)
    requires Plain(s) && p <= k <= |b| && Decode(s, b, p).pos > k
    ensures p <= at <= k
    decreases s, 0, 0
  {
    match s
    case Blob => if p == k then p else p + 1
    case Ascii => if p == k then p else p + 1
    case Tuple(items) => CutReadAll(items, b, p, k)
    case Counted(item, _) => if p == k then p else CutReadList(item, b[p] as nat, b, p + 1, k)
    case Flags(w, rules) => if k - p < w then p else CutReadBits(rules, UIntAt(b, p, w), 0, b, p + w, k)
    case Repeated(w, rules) => CutReadRepeated(w, rules, b, p, k)
    case _ => p
  }

  ghost function CutReadRepeated(w: nat, rules: seq<Rule>, b: Buffer, p: nat, k: nat): (at: nat)
    requires PlainRules(rules) && p <= k <= |b| && Decode(Repeated(w, rules), b, p).pos > k
    ensures p <= at <= k
    decreases rules, 2, 0
  {
    if k - p < w then p
    else if k - p == w then p + w
    else CutReadRecords(rules, UIntAt(b, p, w), b[p + w] as nat, b, p + w + 1, k)
  }

  ghost function CutReadAll(items: seq<Shape>, b: Buffer, p: nat, k: nat): (at: nat)
    requires (forall x :: x in items ==> Plain(x)) && p <= k <= |b| && DecodeAll(items, b, p).pos > k
    ensures p <= at <= k
    decreases items, 0, 0
  {
    var r := Decode(items[0], b, p);
    if r.pos > k then CutRead(items[0], b, p, k) else CutReadAll(items[1..], b, r.pos, k)
  }

  ghost function CutReadList(item: Shape, n: nat, b: Buffer, p: nat, k: nat): (at: nat)
    requires Plain(item) && p <= k <= |b| && DecodeList(item, n, b, p).pos > k
    ensures p <= at <= k
    decreases item, 1, n
  {
    var r := Decode(item, b, p);
    if r.pos > k then CutRead(item, b, p, k) else CutReadList(item, n - 1, b, r.pos, k)
  }

  ghost function CutReadRecords(rules: seq<Rule>, mask: nat, n: nat, b: Buffer, p: nat, k: nat): (at: nat)
    requires PlainRules(rules) && p <= k <= |b| && DecodeRecords(rules, mask, n, b, p).pos > k
    ensures p <= at <= k
    decreases rules, 1, n
  {
    var r := DecodeBits(rules, mask, 0, b, p);
    if r.pos > k then CutReadBits(rules, mask, 0, b, p, k) else CutReadRecords(rules, mask, n - 1, b, r.pos, k)
  }

  ghost function CutReadBits(rules: seq<Rule>, mask: nat, bit: nat, b: Buffer, p: nat, k: nat): (at: nat)
    requires PlainRules(rules) && p <= k <= |b| && bit <= |rules| && DecodeBits(rules, mask, bit, b, p).pos > k
    ensures p <= at <= k
    decreases rules, 0, |rules| - bit
  {
    if Bit(mask, bit) && rules[bit].Field? then
      var r := Decode(rules[bit].shape, b, p);
      assert rules[bit] in rules;
      if r.pos > k then CutRead(rules[bit].shape, b, p, k) else CutReadBits(rules, mask, bit + 1, b, r.pos, k)
    else CutReadBits(rules, mask, bit + 1, b, p, k)
  }

  /** A cut field stops its cursor exactly there. */
  lemma {:induction false} StopsAtRead(s: Shape, b: Buffer, p: nat, k: nat)
    requires Plain(s) && p <= k <= |b| && Decode(s, b, p).pos > k
    ensures Decode(s, b[..k], p).pos == CutRead(s, b, p, k)
    decreases s, 0, 0
  {
    match s
    case Tuple(items) => StopsAtReadAll(items, b, p, k);
    case Counted(item, keeps) => StopsAtReadCounted(item, keeps, b, p, k);
    case Flags(w, rules) => StopsAtReadFlags(w, rules, b, p, k);
    case Repeated(w, rules) => StopsAtReadRepeated(w, rules, b, p, k);
    case _ => StopsAtReadLeaf(s, b, p, k);
  }

  lemma StopsAtReadLeaf(s: Shape, b: Buffer, p: nat, k: nat)
    requires Leaf(s) && p <= k <= |b| && Decode(s, b, p).pos > k
    ensures Decode(s, b[..k], p).pos == CutRead(s, b, p, k)
  {
    match s
    case Blob => assert p < k ==> b[..k][p] == b[p];
    case Ascii => assert p < k ==> b[..k][p] == b[p];
    case _ =>
  }

  lemma {:induction false} StopsAtReadCounted(item: Shape, keeps: bool, b: Buffer, p: nat, k: nat)
    requires Plain(item) && p <= k <= |b| && Decode(Counted(item, keeps), b, p).pos > k
    ensures Decode(Counted(item, keeps), b[..k], p).pos == CutRead(Counted(item, keeps), b, p, k)
    decreases item, 2, 0
  {
    if p < k {
      StopsAtReadList(item, b[p] as nat, b, p + 1, k);
    }
  }

  lemma {:induction false} StopsAtReadFlags(w: nat, rules: seq<Rule>, b: Buffer, p: nat, k: nat)
    requires PlainRules(rules) && p <= k <= |b| && Decode(Flags(w, rules), b, p).pos > k
    ensures Decode(Flags(w, rules), b[..k], p).pos == CutRead(Flags(w, rules), b, p, k)
    decreases rules, 2, 0
  {
    if k - p >= w {
      SlicesAgree(b, k, p, w);
      StopsAtReadBits(rules, UIntAt(b, p, w), 0, b, p + w, k);
    }
  }

  lemma {:induction false} StopsAtReadRepeated(w: nat, rules: seq<Rule>, b: Buffer, p: nat, k: nat)
    requires PlainRules(rules) && p <= k <= |b| && Decode(Repeated(w, rules), b, p).pos > k
    ensures Decode(Repeated(w, rules), b[..k], p).pos == CutRead(Repeated(w, rules), b, p, k)
    decreases rules, 2, 0
  {
    if k - p > w {
      var mask, count := UIntAt(b, p, w), b[p + w] as nat;
      assert Decode(Repeated(w, rules), b, p).pos == DecodeRecords(rules, mask, count, b, p + w + 1).pos;
      SlicesAgree(b, k, p, w);
      StopsAtReadRecords(rules, mask, count, b, p + w + 1, k);
    }
  }

  lemma {:induction false} StopsAtReadAll(items: seq<Shape>, b: Buffer, p: nat, k: nat)
    requires (forall x :: x in items ==> Plain(x)) && p <= k <= |b| && DecodeAll(items, b, p).pos > k
    ensures DecodeAll(items, b[..k], p).pos == CutReadAll(items, b, p, k)
    decreases items, 0, 0
  {
    var r := Decode(items[0], b, p);
    if r.pos > k {
      Straddle(items[0], b, p, k);
      StopsAtRead(items[0], b, p, k);
    } else {
      Lockstep(items[0], b, p, k);
      StopsAtReadAll(items[1..], b, r.pos, k);
    }
  }

  lemma {:induction false} StopsAtReadList(item: Shape, n: nat, b: Buffer, p: nat, k: nat)
    requires Plain(item) && p <= k <= |b| && DecodeList(item, n, b, p).pos > k
    ensures DecodeList(item, n, b[..k], p).pos == CutReadList(item, n, b, p, k)
    decreases item, 1, n
  {
    var r := Decode(item, b, p);
    if r.pos > k {
      Straddle(item, b, p, k);
      StopsAtRead(item, b, p, k);
    } else {
      Lockstep(item, b, p, k);
      StopsAtReadList(item, n - 1, b, r.pos, k);
    }
  }

  lemma {:induction false} StopsAtReadRecords(rules: seq<Rule>, mask: nat, n: nat, b: Buffer, p: nat, k: nat)
    requires PlainRules(rules) && p <= k <= |b| && DecodeRecords(rules, mask, n, b, p).pos > k
    ensures DecodeRecords(rules, mask, n, b[..k], p).pos == CutReadRecords(rules, mask, n, b, p, k)
    decreases rules, 1, n
  {
    var r := DecodeBits(rules, mask, 0, b, p);
    if r.pos > k {
      StraddleBits(rules, mask, 0, b, p, k);
      StopsAtReadBits(rules, mask, 0, b, p, k);
    } else {
      LockstepBits(rules, mask, 0, b, p, k);
      StopsAtReadRecords(rules, mask, n - 1, b, r.pos, k);
    }
  }

  lemma {:induction false} StopsAtReadBits(rules: seq<Rule>, mask: nat, bit: nat, b: Buffer, p: nat, k: nat)
    requires PlainRules(rules) && p <= k <= |b| && bit <= |rules| && DecodeBits(rules, mask, bit, b, p).pos > k
    ensures DecodeBits(rules, mask, bit, b[..k], p).pos == CutReadBits(rules, mask, bit, b, p, k)
    decreases rules, 0, |rules| - bit
  {
    if Bit(mask, bit) && rules[bit].Field? {
      var r := Decode(rules[bit].shape, b, p);
      assert rules[bit] in rules;
      if r.pos > k {
        Straddle(rules[bit].shape, b, p, k);
        StopsAtRead(rules[bit].shape, b, p, k);
      } else {
        Lockstep(rules[bit].shape, b, p, k);
        StopsAtReadBits(rules, mask, bit + 1, b, r.pos, k);
      }
    } else {
      StopsAtReadBits(rules, mask, bit + 1, b, p, k);
    }
  }

  /** The cut leaves at least the four bytes of a mask behind the start of the read it goes through. */
  ghost predicate LeavesMask(rules: seq<Rule>, b: Buffer, at: nat, k: nat) {
    && at + 4 <= k <= |b| && PlainRules(rules)
    && var mask := UIntAt(b, at, 4);
       DecodeBits(rules, mask, 0, b, at + 4).pos > k && k - CutReadBits(rules, mask, 0, b, at + 4, k) >= 4
  }

  /**
   * Phantom blocks, exactly, by the layout of the whole buffer: something is decoded behind a cut
   * block if and only if the cut comes four bytes or more behind the start of the read it goes
   * through, and another block is announced.
   */
  lemma PhantomExactly(rules: seq<Rule>, mask: nat, bit: nat, b: Buffer, at: nat, k: nat)
    requires at <= k <= |b| && bit < |rules| && OnlyBlocks(rules, bit)
    requires Bit(mask, bit) && rules[bit].Field? && Decode(rules[bit].shape, b, at).pos > k
    ensures |DecodeBits(rules, mask, bit, b[..k], at).entries| > 1 <==>
            LeavesMask(rules[bit].shape.rules, b, at, k) && MoreFields(rules, mask, bit + 1)
  {
    BlockCut(rules, mask, bit, b, at, k);
    if at + 4 <= k {
      StopsAtReadBits(rules[bit].shape.rules, UIntAt(b, at, 4), 0, b, at + 4, k);
    }
  }

  // ------------------------------------------------------------------
  // Only blocks that catch their own failures push warnings
  // ------------------------------------------------------------------

  lemma {:induction false} PlainQuiet(s: Shape, b: Buffer, p: nat)
    requires Plain(s) && p <= |b|
    ensures Decode(s, b, p).warnings == []
    decreases s, 0, 0
  {
    match s
    case Tuple(items) => PlainQuietAll(items, b, p);
    case Counted(item, _) => if p < |b| { PlainQuietList(item, b[p] as nat, b, p + 1); }
    case Flags(w, rules) => if |b| - p >= w { PlainQuietBits(rules, UIntAt(b, p, w), 0, b, p + w); }
    case Repeated(w, rules) =>
      if |b| - p > w {
        PlainQuietRecords(rules, UIntAt(b, p, w), b[p + w] as nat, b, p + w + 1);
      }
    case _ =>
  }

  lemma {:induction false} PlainQuietAll(items: seq<Shape>, b: Buffer, p: nat)
    requires (forall x :: x in items ==> Plain(x)) && p <= |b|
    ensures DecodeAll(items, b, p).warnings == []
    decreases items, 0, 0
  {
    if items != [] {
      PlainQuiet(items[0], b, p);
      PlainQuietAll(items[1..], b, Decode(items[0], b, p).pos);
    }
  }

  lemma {:induction false} PlainQuietList(item: Shape, n: nat, b: Buffer, p: nat)
    requires Plain(item) && p <= |b|
    ensures DecodeList(item, n, b, p).warnings == []
    decreases item, 1, n
  {
    if n > 0 {
      PlainQuiet(item, b, p);
      PlainQuietList(item, n - 1, b, Decode(item, b, p).pos);
    }
  }

  lemma {:induction false} PlainQuietRecords(rules: seq<Rule>, mask: nat, n: nat, b: Buffer, p: nat)
    requires PlainRules(rules) && p <= |b|
    ensures DecodeRecords(rules, mask, n, b, p).warnings == []
    decreases rules, 1, n
  {
    if n > 0 {
      PlainQuietBits(rules, mask, 0, b, p);
      PlainQuietRecords(rules, mask, n - 1, b, DecodeBits(rules, mask, 0, b, p).pos);
    }
  }

  lemma {:induction false} PlainQuietBits(rules: seq<Rule>, mask: nat, bit: nat, b: Buffer, p: nat)
    requires PlainRules(rules) && p <= |b| && bit <= |rules|
    ensures DecodeBits(rules, mask, bit, b, p).warnings == []
    decreases rules, 0, |rules| - bit
  {
    if bit < |rules| {
      if Bit(mask, bit) && rules[bit].Field? {
        PlainQuiet(rules[bit].shape, b, p);
        PlainQuietBits(rules, mask, bit + 1, b, Decode(rules[bit].shape, b, p).pos);
      } else {
        PlainQuietBits(rules, mask, bit + 1, b, p);
      }
    }
  }
}
