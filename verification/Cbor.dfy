/** The definite-length CBOR scanner and the grammar it accepts. */
module Cbor {
  import opened Bytes

  const MAX_DEPTH: nat := 32

  datatype CodecError =
    MaxDepthExceeded | UnexpectedEnd | IndefiniteLength | TruncatedInt | ReservedInfo | TruncatedString | TooManyItems

  datatype Outcome<+T> = Ok(value: T) | Err(error: CodecError)

  // ---- The grammar (RFC 8949, section 3) ----

  /** The initial byte and its argument: `width` argument bytes follow, none when the value is in the byte. */
  datatype Head = Head(major: nat, width: nat, value: nat)

  datatype Item =
    | Leaf(head: Head)                            // integers, simple values and floats
    | Text(head: Head, payload: seq<Byte>)        // byte and text strings
    | Group(head: Head, items: Items)             // arrays, maps and tags

  datatype Items = End | More(first: Item, rest: Items)

  ghost predicate HeadOk(h: Head) {
    && h.major < 8
    && (if h.width == 0 then h.value < 24
        else (h.width == 1 || h.width == 2 || h.width == 4 || h.width == 8) && h.value < Pow256(h.width))
  }

  /** What follows a head: nothing, so many bytes, or so many items. */
  datatype Kind = Plain | Run(bytes: nat) | Nest(items: nat)

  function KindOf(h: Head): Kind {
    if h.major == 2 || h.major == 3 then Run(h.value)
    else if h.major == 4 then Nest(h.value)
    else if h.major == 5 then Nest(2 * h.value)
    else if h.major == 6 then Nest(1)
    else Plain
  }

  function Count(items: Items): nat {
    match items
    case End => 0
    case More(_, rest) => 1 + Count(rest)
  }

  /** Each head is followed by what it announces. */
  ghost predicate Shaped(it: Item) {
    match it
    case Leaf(h) => KindOf(h) == Plain
    case Text(h, payload) => KindOf(h) == Run(|payload|)
    case Group(h, items) => KindOf(h) == Nest(Count(items)) && AllShaped(items)
  }

  ghost predicate AllShaped(items: Items) {
    items.More? ==> Shaped(items.first) && AllShaped(items.rest)
  }

  ghost predicate HeadsOk(it: Item) {
    HeadOk(it.head) && (it.Group? ==> AllHeadsOk(it.items))
  }

  ghost predicate AllHeadsOk(items: Items) {
    items.More? ==> HeadsOk(items.first) && AllHeadsOk(items.rest)
  }

  /** Every item fits between its level and the deepest one allowed. */
  ghost predicate Fits(it: Item, depth: nat) {
    depth <= MAX_DEPTH && (it.Group? ==> AllFit(it.items, depth + 1))
  }

  ghost predicate AllFit(items: Items, depth: nat) {
    items.More? ==> Fits(items.first, depth) && AllFit(items.rest, depth)
  }

  function Info(h: Head): nat {
    match h.width
    case 0 => h.value
    case 1 => 24
    case 2 => 25
    case 4 => 26
    case _ => 27
  }

  function EncodeHead(h: Head): (r: seq<Byte>)
    requires HeadOk(h)
    ensures |r| == 1 + h.width
  {
    [32 * h.major + Info(h)] + ToBE(h.value, h.width)
  }

  function Encode(it: Item): (r: seq<Byte>)
    requires HeadsOk(it)
    ensures |r| > 0
  {
    match it
    case Leaf(h) => EncodeHead(h)
    case Text(h, payload) => EncodeHead(h) + payload
    case Group(h, items) => EncodeHead(h) + EncodeAll(items)
  }

  function EncodeAll(items: Items): (r: seq<Byte>)
    requires AllHeadsOk(items)
    ensures |r| >= Count(items)
  {
    match items
    case End => []
    case More(first, rest) => Encode(first) + EncodeAll(rest)
  }

  // ---- The scanner as a function of the cursor ----

  function Width(info: nat): nat {
    if info < 24 then 0 else if info == 24 then 1 else if info == 25 then 2 else if info == 26 then 4 else 8
  }

  /** The head at `at` and the position after it. */
  function ReadHead(bytes: seq<Byte>, at: nat): (r: Outcome<(Head, nat)>)
    ensures r.Ok? ==> at < r.value.1 <= |bytes|
  {
    if at >= |bytes| then Err(UnexpectedEnd) else
      var major, info := bytes[at] / 32, bytes[at] % 32;
      if info == 31 then Err(IndefiniteLength)
      else if info > 27 then Err(ReservedInfo)
      else
        var next := at + 1 + Width(info);
        if next > |bytes| then Err(TruncatedInt)
        else Ok((Head(major, Width(info), if info < 24 then info else FromBE(bytes[at + 1..next])), next))
  }

  /** A way to read heads; the scanner looks at the input only through it. */
  type Reader = nat -> Outcome<(Head, nat)>

  function HeadsOf(bytes: seq<Byte>): Reader {
    at => ReadHead(bytes, at)
  }

  /** Every head that is read lies inside the input. */
  ghost predicate Steady(f: Reader, len: nat) {
    forall at: nat :: f(at).Ok? ==> f(at).value.1 == at + 1 + f(at).value.0.width <= len
  }

  /** Every head that is read is in order. */
  ghost predicate Orderly(f: Reader) {
    forall at: nat :: f(at).Ok? ==> HeadOk(f(at).value.0)
  }

  /** The position after the item at `at`. */
  function ScanItem(f: Reader, len: nat, at: nat, depth: nat): (r: Outcome<nat>)
    requires Steady(f, len) && at <= len
    ensures r.Ok? ==> at < r.value <= len
    decreases len - at, 0
  {
    if depth > MAX_DEPTH then Err(MaxDepthExceeded) else
      match f(at)
      case Err(e) => Err(e)
      case Ok((h, next)) =>
        match KindOf(h)
        case Plain => Ok(next)
        case Run(n) => if n > len - next then Err(TruncatedString) else Ok(next + n)
        case Nest(n) =>
          if h.major != 6 && n > len - next then Err(TooManyItems) else ScanItems(f, len, next, n, depth + 1)
  }

  /** The position after `n` consecutive items. */
  function ScanItems(f: Reader, len: nat, at: nat, n: nat, depth: nat): (r: Outcome<nat>)
    requires Steady(f, len) && at <= len
    ensures r.Ok? ==> at <= r.value <= len
    decreases len - at, 1
  {
    if n == 0 then Ok(at) else
      match ScanItem(f, len, at, depth)
      case Err(e) => Err(e)
      case Ok(next) => ScanItems(f, len, next, n - 1, depth)
  }

  /** Items one after the other up to the end of the input. */
  function ScanAll(f: Reader, len: nat, at: nat): (r: Outcome<nat>)
    requires Steady(f, len) && at <= len
    decreases len - at
  {
    if at == len then Ok(at) else
      match ScanItem(f, len, at, 0)
      case Err(e) => Err(e)
      case Ok(next) => ScanAll(f, len, next)
  }

  // ---- The scanner with its mutable cursor ----

  method ScanSingleItem(bytes: seq<Byte>, cursor0: nat, depth: nat) returns (r: Outcome<nat>)
    requires cursor0 <= |bytes|
    ensures Steady(HeadsOf(bytes), |bytes|) && r == ScanItem(HeadsOf(bytes), |bytes|, cursor0, depth)
    decreases |bytes| - cursor0, 0
  {
    HeadsAreSteady(bytes);
    ghost var f := HeadsOf(bytes);
    if depth > MAX_DEPTH {
      return Err(MaxDepthExceeded);
    }
    var head := ReadHead(bytes, cursor0);
    assert head == f(cursor0);
    if head.Err? {
      return Err(head.error);
    }
    var (h, cursor) := head.value;
    if h.major == 2 || h.major == 3 {
      if h.value > |bytes| - cursor {
        return Err(TruncatedString);
      }
      cursor := cursor + h.value;
    } else if h.major == 4 || h.major == 5 {
      var items := if h.major == 4 then h.value else 2 * h.value;
      if items > |bytes| - cursor {
        return Err(TooManyItems);
      }
      r := ScanMany(bytes, cursor, items, depth + 1);
      return;
    } else if h.major == 6 {
      OneItem(f, |bytes|, cursor, depth + 1);
      r := ScanSingleItem(bytes, cursor, depth + 1);
      return;
    }
    r := Ok(cursor);
  }

  /** The loop over the items of an array or a map. */
  method ScanMany(bytes: seq<Byte>, start: nat, items: nat, depth: nat) returns (r: Outcome<nat>)
    requires start <= |bytes|
    ensures Steady(HeadsOf(bytes), |bytes|) && r == ScanItems(HeadsOf(bytes), |bytes|, start, items, depth)
    decreases |bytes| - start, 1
  {
    HeadsAreSteady(bytes);
    ghost var f := HeadsOf(bytes);
    var cursor := start;
    for i := 0 to items
      invariant start <= cursor <= |bytes|
      invariant ScanItems(f, |bytes|, start, items, depth) == ScanItems(f, |bytes|, cursor, items - i, depth)
    {
      var next := ScanSingleItem(bytes, cursor, depth);
      if next.Err? {
        return next;
      }
      cursor := next.value;
    }
    r := Ok(cursor);
  }

  /** The scanner accepts exactly the concatenations of definite-length items nested at most 32 deep. */
  method VerifyDefiniteLength(bytes: seq<Byte>) returns (r: Outcome<nat>)
    ensures r.Ok? <==> exists items :: Spells(bytes, items)
    ensures r.Ok? ==> r.value == |bytes|
  {
    HeadsAreSteady(bytes);
    ghost var f := HeadsOf(bytes);
    ScanAllIff(bytes);
    var cursor := 0;
    while cursor < |bytes|
      invariant cursor <= |bytes| && ScanAll(f, |bytes|, 0) == ScanAll(f, |bytes|, cursor)
    {
      var next := ScanSingleItem(bytes, cursor, 0);
      if next.Err? {
        return next;
      }
      cursor := next.value;
    }
    r := Ok(cursor);
  }

  /** `bytes` is the concatenation of the items, none of them nested too deep. */
  ghost predicate Spells(bytes: seq<Byte>, items: Items) {
    AllHeadsOk(items) && AllShaped(items) && AllFit(items, 0) && bytes == EncodeAll(items)
  }

  // ---- Positions ----

  /** `code` stands in `bytes` at position `at`. */
  ghost predicate StandsAt(bytes: seq<Byte>, at: nat, code: seq<Byte>) {
    at + |code| <= |bytes| && bytes[at..at + |code|] == code
  }

  lemma StandsConcat(bytes: seq<Byte>, at: nat, a: seq<Byte>, b: seq<Byte>)
    ensures StandsAt(bytes, at, a + b) <==> StandsAt(bytes, at, a) && StandsAt(bytes, at + |a|, b)
  {
    if at + |a + b| <= |bytes| {
      assert bytes[at..at + |a|] == bytes[at..at + |a + b|][..|a|];
      assert bytes[at + |a|..at + |a| + |b|] == bytes[at..at + |a + b|][|a|..];
      assert bytes[at..at + |a + b|] == bytes[at..at + |a|] + bytes[at + |a|..at + |a| + |b|];
    }
  }

  // ---- Heads ----

  lemma ReadHeadSound(bytes: seq<Byte>, at: nat)
    requires ReadHead(bytes, at).Ok?
    ensures var (h, next) := ReadHead(bytes, at).value;
      HeadOk(h) && next == at + 1 + h.width && StandsAt(bytes, at, EncodeHead(h))
  {
    var (h, next) := ReadHead(bytes, at).value;
    var arg := bytes[at + 1..next];
    ToFromBE(arg);
    assert bytes[at] == 32 * h.major + Info(h);
    assert bytes[at..next] == [bytes[at]] + arg;
  }

  lemma ReadHeadComplete(bytes: seq<Byte>, at: nat, h: Head)
    requires HeadOk(h) && StandsAt(bytes, at, EncodeHead(h))
    ensures ReadHead(bytes, at) == Ok((h, at + 1 + h.width))
  {
    var next := at + 1 + h.width;
    var code := EncodeHead(h);
    assert bytes[at] == bytes[at..next][0] == code[0];
    assert bytes[at + 1..next] == bytes[at..next][1..] == ToBE(h.value, h.width);
    if h.width > 0 { FromToBE(h.value, h.width); }
    assert bytes[at] / 32 == h.major && bytes[at] % 32 == Info(h);
  }

  lemma HeadsAreSteady(bytes: seq<Byte>)
    ensures Steady(HeadsOf(bytes), |bytes|) && Orderly(HeadsOf(bytes))
  {
    var f := HeadsOf(bytes);
    forall at: nat | f(at).Ok?
      ensures HeadOk(f(at).value.0) && f(at).value.1 == at + 1 + f(at).value.0.width <= |bytes|
    {
      ReadHeadSound(bytes, at);
    }
  }

  // ---- The layout of an item: its heads where the reader finds them, its texts in the input ----

  ghost predicate Lies(f: Reader, bytes: seq<Byte>, at: nat, it: Item)
    decreases it
  {
    && f(at) == Ok((it.head, at + 1 + it.head.width))
    && match it
       case Leaf(_) => true
       case Text(h, payload) => StandsAt(bytes, at + 1 + h.width, payload)
       case Group(h, items) => AllLie(f, bytes, at + 1 + h.width, items)
  }

  ghost predicate AllLie(f: Reader, bytes: seq<Byte>, at: nat, items: Items)
    decreases items
  {
    items.More? ==> Lies(f, bytes, at, items.first) && AllLie(f, bytes, at + Size(items.first), items.rest)
  }

  function Size(it: Item): (n: nat)
    ensures n > 0
  {
    1 + it.head.width
    + match it
      case Leaf(_) => 0
      case Text(_, payload) => |payload|
      case Group(_, items) => SizeAll(items)
  }

  function SizeAll(items: Items): (n: nat)
    ensures n >= Count(items)
  {
    match items
    case End => 0
    case More(first, rest) => Size(first) + SizeAll(rest)
  }

  lemma {:induction false} SizeIsLength(it: Item)
    requires HeadsOk(it)
    ensures |Encode(it)| == Size(it)
    decreases it
  {
    if it.Group? { SizeAllIsLength(it.items); }
  }

  lemma {:induction false} SizeAllIsLength(items: Items)
    requires AllHeadsOk(items)
    ensures |EncodeAll(items)| == SizeAll(items)
    decreases items
  {
    match items {
      case End =>
      case More(first, rest) =>
        SizeIsLength(first);
        SizeAllIsLength(rest);
    }
  }

  /** Laid out in the input is the same as its encoding standing there. */
  lemma {:induction false} LiesIffStands(bytes: seq<Byte>, at: nat, it: Item)
    requires HeadsOk(it)
    ensures Lies(HeadsOf(bytes), bytes, at, it) <==> StandsAt(bytes, at, Encode(it))
    decreases it
  {
    var h := it.head;
    HeadIff(bytes, at, h);
    match it {
      case Leaf(_) =>
      case Text(_, payload) => StandsConcat(bytes, at, EncodeHead(h), payload);
      case Group(_, items) =>
        StandsConcat(bytes, at, EncodeHead(h), EncodeAll(items));
        if StandsAt(bytes, at, EncodeHead(h)) { AllLieIffStand(bytes, at + 1 + h.width, items); }
    }
  }

  lemma HeadIff(bytes: seq<Byte>, at: nat, h: Head)
    requires HeadOk(h)
    ensures HeadsOf(bytes)(at) == Ok((h, at + 1 + h.width)) <==> StandsAt(bytes, at, EncodeHead(h))
  {
    if ReadHead(bytes, at).Ok? { ReadHeadSound(bytes, at); }
    if StandsAt(bytes, at, EncodeHead(h)) { ReadHeadComplete(bytes, at, h); }
  }

  lemma MoreIff(f: Reader, bytes: seq<Byte>, at: nat, first: Item, rest: Items, a: seq<Byte>, b: seq<Byte>)
    requires |a| == Size(first) && (Lies(f, bytes, at, first) <==> StandsAt(bytes, at, a))
    requires at + |a| <= |bytes| ==> (AllLie(f, bytes, at + |a|, rest) <==> StandsAt(bytes, at + |a|, b))
    ensures AllLie(f, bytes, at, More(first, rest)) <==> StandsAt(bytes, at, a + b)
  {
    StandsConcat(bytes, at, a, b);
    assert StandsAt(bytes, at, a) ==> at + |a| <= |bytes|;
  }

  lemma {:induction false} AllLieIffStand(bytes: seq<Byte>, at: nat, items: Items)
    requires AllHeadsOk(items) && at <= |bytes|
    ensures AllLie(HeadsOf(bytes), bytes, at, items) <==> StandsAt(bytes, at, EncodeAll(items))
    decreases items
  {
    match items {
      case End =>
      case More(first, rest) =>
        SizeIsLength(first);
        LiesIffStands(bytes, at, first);
        if at + Size(first) <= |bytes| { AllLieIffStand(bytes, at + Size(first), rest); }
        MoreIff(HeadsOf(bytes), bytes, at, first, rest, Encode(first), EncodeAll(rest));
    }
  }

  // ---- Whatever is accepted is laid out in the input ----

  lemma OneItem(f: Reader, len: nat, at: nat, depth: nat)
    requires Steady(f, len) && at <= len
    ensures ScanItems(f, len, at, 1, depth) == ScanItem(f, len, at, depth)
  {
    var r := ScanItem(f, len, at, depth);
    if r.Ok? { assert ScanItems(f, len, r.value, 0, depth) == Ok(r.value); }
  }

  lemma {:induction false} ScanSound(f: Reader, bytes: seq<Byte>, at: nat, depth: nat) returns (it: Item)
    requires Steady(f, |bytes|) && Orderly(f) && at <= |bytes| && ScanItem(f, |bytes|, at, depth).Ok?
    ensures HeadsOk(it) && Shaped(it) && Fits(it, depth) && Lies(f, bytes, at, it)
    ensures ScanItem(f, |bytes|, at, depth).value == at + Size(it)
    decreases |bytes| - at, 0
  {
    var (h, next) := f(at).value;
    match KindOf(h) {
      case Plain => it := Leaf(h);
      case Run(n) => it := Text(h, bytes[next..next + n]);
      case Nest(n) =>
        var items := ScanItemsSound(f, bytes, next, n, depth + 1);
        it := Group(h, items);
    }
  }

  /** The first of several items, and the rest. */
  lemma FirstItem(f: Reader, len: nat, at: nat, n: nat, depth: nat) returns (next: nat)
    requires Steady(f, len) && at <= len && n > 0 && ScanItems(f, len, at, n, depth).Ok?
    ensures at < next <= len && ScanItem(f, len, at, depth) == Ok(next)
    ensures ScanItems(f, len, next, n - 1, depth) == ScanItems(f, len, at, n, depth)
  {
    next := ScanItem(f, len, at, depth).value;
  }

  lemma {:induction false} ScanItemsSound(f: Reader, bytes: seq<Byte>, at: nat, n: nat, depth: nat)
    returns (items: Items)
    requires Steady(f, |bytes|) && Orderly(f) && at <= |bytes| && ScanItems(f, |bytes|, at, n, depth).Ok?
    ensures Count(items) == n && AllHeadsOk(items) && AllShaped(items)
    ensures AllFit(items, depth) && AllLie(f, bytes, at, items)
    ensures ScanItems(f, |bytes|, at, n, depth).value == at + SizeAll(items)
    decreases |bytes| - at, 1
  {
    if n == 0 {
      items := End;
    } else {
      var next := FirstItem(f, |bytes|, at, n, depth);
      var it := ScanSound(f, bytes, at, depth);
      var rest := ScanItemsSound(f, bytes, next, n - 1, depth);
      items := More(it, rest);
    }
  }

  // ---- Whatever is laid out in the input is accepted ----

  lemma JoinItems(f: Reader, len: nat, at: nat, n: nat, depth: nat, next: nat, end: nat)
    requires Steady(f, len) && at <= len && n > 0 && ScanItem(f, len, at, depth) == Ok(next)
    requires ScanItems(f, len, next, n - 1, depth) == Ok(end)
    ensures ScanItems(f, len, at, n, depth) == Ok(end)
  {
  }

  /** The guards on the remaining bytes never stop a well-formed item. */
  lemma {:induction false} ScanComplete(f: Reader, bytes: seq<Byte>, at: nat, depth: nat, it: Item)
    requires Steady(f, |bytes|) && at + Size(it) <= |bytes|
    requires Shaped(it) && Fits(it, depth) && Lies(f, bytes, at, it)
    ensures ScanItem(f, |bytes|, at, depth) == Ok(at + Size(it))
    decreases it
  {
    if it.Group? {
      ScanItemsComplete(f, bytes, at + 1 + it.head.width, depth + 1, it.items);
    }
  }

  lemma {:induction false} ScanItemsComplete(f: Reader, bytes: seq<Byte>, at: nat, depth: nat, items: Items)
    requires Steady(f, |bytes|) && at + SizeAll(items) <= |bytes|
    requires AllShaped(items) && AllFit(items, depth) && AllLie(f, bytes, at, items)
    ensures ScanItems(f, |bytes|, at, Count(items), depth) == Ok(at + SizeAll(items))
    decreases items
  {
    match items {
      case End =>
      case More(first, rest) =>
        ScanComplete(f, bytes, at, depth, first);
        ScanItemsComplete(f, bytes, at + Size(first), depth, rest);
        JoinItems(f, |bytes|, at, Count(items), depth, at + Size(first), at + SizeAll(items));
    }
  }

  // ---- The whole input ----

  lemma {:induction false} ScanAllSound(f: Reader, bytes: seq<Byte>, at: nat) returns (items: Items)
    requires Steady(f, |bytes|) && Orderly(f) && at <= |bytes| && ScanAll(f, |bytes|, at).Ok?
    ensures AllHeadsOk(items) && AllShaped(items) && AllFit(items, 0)
    ensures AllLie(f, bytes, at, items) && at + SizeAll(items) == |bytes|
    decreases |bytes| - at
  {
    if at == |bytes| {
      items := End;
    } else {
      var it := ScanSound(f, bytes, at, 0);
      var rest := ScanAllSound(f, bytes, at + Size(it));
      items := More(it, rest);
    }
  }

  lemma {:induction false} ScanAllComplete(f: Reader, bytes: seq<Byte>, at: nat, items: Items)
    requires Steady(f, |bytes|) && at + SizeAll(items) == |bytes|
    requires AllShaped(items) && AllFit(items, 0) && AllLie(f, bytes, at, items)
    ensures ScanAll(f, |bytes|, at).Ok?
    decreases items
  {
    match items {
      case End =>
      case More(first, rest) =>
        ScanComplete(f, bytes, at, 0, first);
        ScanAllComplete(f, bytes, at + Size(first), rest);
    }
  }

  lemma SpellsIff(bytes: seq<Byte>, items: Items)
    ensures Spells(bytes, items)
      <==> && AllHeadsOk(items) && AllShaped(items) && AllFit(items, 0)
           && AllLie(HeadsOf(bytes), bytes, 0, items) && SizeAll(items) == |bytes|
  {
    if AllHeadsOk(items) {
      SizeAllIsLength(items);
      AllLieIffStand(bytes, 0, items);
      assert bytes[0..|bytes|] == bytes;
    }
  }

  lemma ScanAllIff(bytes: seq<Byte>)
    ensures Steady(HeadsOf(bytes), |bytes|)
    ensures ScanAll(HeadsOf(bytes), |bytes|, 0).Ok? <==> exists items :: Spells(bytes, items)
  {
    var f := HeadsOf(bytes);
    HeadsAreSteady(bytes);
    if ScanAll(f, |bytes|, 0).Ok? {
      var items := ScanAllSound(f, bytes, 0);
      SpellsIff(bytes, items);
    }
    if items :| Spells(bytes, items) {
      SpellsIff(bytes, items);
      ScanAllComplete(f, bytes, 0, items);
    }
  }
}
