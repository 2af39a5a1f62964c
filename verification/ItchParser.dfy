/** The reader of length-framed market-data messages, and the writer it inverts. */
module ItchParser {
  import opened Types
  import opened ByteOrder

  /** The fields of an order that the reader fills in. */
  datatype Parsed = Parsed(id: bv64, timestamp: bv64, side: Side, quantity: bv32, symbol: seq<byte>, price: real)

  /** The reader's result; a frame of length zero makes it throw. */
  datatype Outcome = Orders(orders: seq<Parsed>) | LengthError

  const ADD_ORDER: byte := 0x41
  const SPACE: byte := 0x20
  const NUL: byte := 0x00
  const BUY_MARK: byte := 0x42
  const SELL_MARK: byte := 0x53
  /** Packed size of the Add Order payload. */
  const PAYLOAD: nat := 37

  // ------------------------------------------------------------ reading

  function UpTo(s: seq<byte>, stop: byte): seq<byte> {
    if s == [] || s[0] == stop then [] else [s[0]] + UpTo(s[1..], stop)
  }

  /** The text of a space-padded field, copied into a seven-character buffer. */
  function SymbolOf(stock: seq<byte>): seq<byte> {
    var text := UpTo(UpTo(stock, SPACE), NUL);
    if |text| <= 7 then text else text[..7]
  }

  /** Prices carry four implied decimal places. */
  function PriceOf(ticks: bv32): real {
    ticks as int as real / 10000.0
  }

  function Decode(p: seq<byte>): Parsed
    requires PAYLOAD <= |p|
  {
    Parsed(Bswap64(Load64(p[12..20])), Bswap64(Load64(p[4..12])),
           if p[20] == BUY_MARK then BUY else SELL,
           Bswap32(Load32(p[21..25])), SymbolOf(p[25..33]), PriceOf(Bswap32(Load32(p[33..37]))))
  }

  /** The orders a frame contributes: at most one. */
  function OrdersIn(kind: byte, payload: seq<byte>): seq<Parsed> {
    if kind == ADD_ORDER && PAYLOAD <= |payload| then [Decode(payload)] else []
  }

  function FrameLength(bytes: seq<byte>): nat
    requires 2 <= |bytes|
  {
    Bswap16(Load16(bytes[..2])) as nat
  }

  function Parse(bytes: seq<byte>): Outcome
    decreases |bytes|
  {
    if |bytes| < 3 then Orders([])
    else
      var length := FrameLength(bytes);
      if length == 0 then LengthError
      else if |bytes| < 2 + length then Orders([])
      else
        match Parse(bytes[2 + length..])
        case LengthError => LengthError
        case Orders(rest) => Orders(OrdersIn(bytes[2], bytes[3..2 + length]) + rest)
  }

  /** The orders read so far followed by what the rest of the stream yields. */
  function Prefixed(orders: seq<Parsed>, rest: Outcome): Outcome {
    match rest
    case LengthError => LengthError
    case Orders(more) => Orders(orders + more)
  }

  function LengthAt(bytes: seq<byte>, at: nat): nat
    requires at + 2 <= |bytes|
  {
    Bswap16(Load16(bytes[at..at + 2])) as nat
  }

  /** One frame of the stream, seen from its place in the whole. */
  lemma ParseAt(bytes: seq<byte>, at: nat)
    requires at <= |bytes|
    ensures |bytes| - at < 3 ==> Parse(bytes[at..]) == Orders([])
    ensures 3 <= |bytes| - at ==>
              var length := LengthAt(bytes, at);
              Parse(bytes[at..])
              == if length == 0 then LengthError
                 else if |bytes| - at < 2 + length then Orders([])
                 else Prefixed(OrdersIn(bytes[at + 2], bytes[at + 3..at + 2 + length]), Parse(bytes[at + 2 + length..]))
  {
    hide Parse, FrameLength, LengthAt, OrdersIn;
    var rest := bytes[at..];
    ParseHead(rest);
    if 3 <= |rest| {
      LengthThere(bytes, at);
      var length := LengthAt(bytes, at);
      if 0 < length && 2 + length <= |rest| {
        assert rest[3..2 + length] == bytes[at + 3..at + 2 + length];
        assert rest[2 + length..] == bytes[at + 2 + length..];
      }
    }
  }

  lemma {:induction false} ParseHead(bytes: seq<byte>)
    ensures |bytes| < 3 ==> Parse(bytes) == Orders([])
    ensures 3 <= |bytes| ==>
              var length := FrameLength(bytes);
              Parse(bytes)
              == if length == 0 then LengthError
                 else if |bytes| < 2 + length then Orders([])
                 else Prefixed(OrdersIn(bytes[2], bytes[3..2 + length]), Parse(bytes[2 + length..]))
  {
    hide FrameLength, OrdersIn;
  }

  lemma LengthThere(bytes: seq<byte>, at: nat)
    requires at + 2 <= |bytes|
    ensures FrameLength(bytes[at..]) == LengthAt(bytes, at)
  {
    hide Bswap16, Load16;
    assert bytes[at..][..2] == bytes[at..at + 2];
  }

  /** A frame starts at `at` when the length fields, followed from `from`, lead there. */
  predicate Starts(bytes: seq<byte>, from: nat, at: nat)
    decreases |bytes| - from
  {
    at == from
    || (from + 3 <= |bytes| && 0 < LengthAt(bytes, from) && from + 2 + LengthAt(bytes, from) <= |bytes|
        && Starts(bytes, from + 2 + LengthAt(bytes, from), at))
  }

  /** The length and type bytes of a frame of length zero. */
  predicate ZeroFrame(bytes: seq<byte>, at: nat) {
    at + 3 <= |bytes| && LengthAt(bytes, at) == 0
  }

  lemma {:induction false} ThrowsFrom(bytes: seq<byte>, from: nat)
    requires from <= |bytes|
    ensures Parse(bytes[from..]) == LengthError <==> exists at :: Starts(bytes, from, at) && ZeroFrame(bytes, at)
    decreases |bytes| - from
  {
    hide Parse, LengthAt, OrdersIn;
    ParseAt(bytes, from);
    if from + 3 <= |bytes| && LengthAt(bytes, from) == 0 {
      assert Starts(bytes, from, from) && ZeroFrame(bytes, from);
    } else if from + 3 <= |bytes| && from + 2 + LengthAt(bytes, from) <= |bytes| {
      var next := from + 2 + LengthAt(bytes, from);
      ThrowsFrom(bytes, next);
      assert forall at :: ZeroFrame(bytes, at) ==> (Starts(bytes, from, at) <==> Starts(bytes, next, at));
    }
  }

  /** For every byte string: the reader throws, losing all orders, if and only if the length
      fields lead to a frame of length zero. */
  lemma ThrowsWhen(bytes: seq<byte>)
    ensures Parse(bytes) == LengthError <==> exists at :: Starts(bytes, 0, at) && ZeroFrame(bytes, at)
  {
    ThrowsFrom(bytes, 0);
    assert bytes[0..] == bytes;
  }

  lemma PrefixedTwice(a: seq<Parsed>, b: seq<Parsed>, rest: Outcome)
    ensures Prefixed(a, Prefixed(b, rest)) == Prefixed(a + b, rest)
  {
    if rest.Orders? {
      ConcatAssoc(a, b, rest.orders);
    }
  }

  /** One attempt to read: a whole frame, nothing more to read, or an exception. */
  datatype Reading = NextFrame(kind: byte, payload: seq<byte>, next: nat) | EndOfStream | Thrown

  /** Reads the length, the type and the payload that stand at a position. */
  method ReadFrame(bytes: seq<byte>, at: nat) returns (r: Reading)
    requires at <= |bytes|
    ensures match r
            case EndOfStream => Parse(bytes[at..]) == Orders([])
            case Thrown => Parse(bytes[at..]) == LengthError
            case NextFrame(kind, payload, next) =>
              at < next <= |bytes|
              && Parse(bytes[at..]) == Prefixed(OrdersIn(kind, payload), Parse(bytes[next..]))
  {
    hide Parse, LengthAt, OrdersIn, Prefixed;
    ParseAt(bytes, at);
    if |bytes| - at < 3 {
      return EndOfStream;
    }
    var length := LengthAt(bytes, at);
    if length == 0 {
      return Thrown;
    }
    if |bytes| - at < 2 + length {
      return EndOfStream;
    }
    return NextFrame(bytes[at + 2], bytes[at + 3..at + 2 + length], at + 2 + length);
  }

  /** Reads a stream frame by frame. */
  method ParseFile(bytes: seq<byte>) returns (result: Outcome)
    ensures result == Parse(bytes)
  {
    hide Parse, OrdersIn, Prefixed;
    var orders: seq<Parsed> := [];
    var at := 0;
    assert bytes[0..] == bytes;
    NothingBefore(Parse(bytes));
    while true
      invariant 0 <= at <= |bytes|
      invariant Parse(bytes) == Prefixed(orders, Parse(bytes[at..]))
      decreases |bytes| - at
    {
      var r := ReadFrame(bytes, at);
      NothingAfter(orders);
      match r
      case EndOfStream => return Orders(orders);
      case Thrown => return LengthError;
      case NextFrame(kind, payload, next) =>
        PrefixedTwice(orders, OrdersIn(kind, payload), Parse(bytes[next..]));
        orders := orders + OrdersIn(kind, payload);
        at := next;
    }
  }

  lemma NothingBefore(r: Outcome)
    ensures Prefixed([], r) == r
  {
    if r.Orders? {
      assert [] + r.orders == r.orders;
    }
  }

  lemma NothingAfter(orders: seq<Parsed>)
    ensures Prefixed(orders, Orders([])) == Orders(orders)
    ensures Prefixed(orders, LengthError) == LengthError
  {
    assert orders + [] == orders;
  }

  // ------------------------------------------------------------ writing

  datatype Frame =
    | AddOrder(locate: bv16, tracking: bv16, timestamp: bv64, id: bv64, side: Side, shares: bv32,
               symbol: seq<byte>, price: bv32)
    | Other(kind: byte, length: bv16, body: seq<byte>)

  /** A symbol the eight-byte field can carry. */
  predicate Fits(symbol: seq<byte>) {
    |symbol| <= 8 && NUL !in symbol
  }

  predicate Writable(f: Frame) {
    match f
    case AddOrder(_, _, _, _, _, _, symbol, _) => Fits(symbol)
    case Other(kind, length, body) => kind != ADD_ORDER && length as nat == 1 + |body|
  }

  /** The length field counts the type byte and the payload. */
  function Length(f: Frame): bv16 {
    if f.AddOrder? then 38 else f.length
  }

  function Padded(symbol: seq<byte>): (s: seq<byte>)
    requires |symbol| <= 8
    ensures |s| == 8
  {
    symbol + seq(8 - |symbol|, _ => SPACE)
  }

  function Body(f: Frame): (b: seq<byte>)
    requires Writable(f)
    ensures f.AddOrder? ==> |b| == PAYLOAD
    ensures 1 + |b| == Length(f) as nat
  {
    match f
    case AddOrder(locate, tracking, timestamp, id, side, shares, symbol, price) =>
      Store16(Bswap16(locate)) + Store16(Bswap16(tracking)) + Store64(Bswap64(timestamp)) + Store64(Bswap64(id))
      + [if side.BUY? then BUY_MARK else SELL_MARK] + Store32(Bswap32(shares)) + Padded(symbol)
      + Store32(Bswap32(price))
    case Other(_, _, body) => body
  }

  function Kind(f: Frame): byte {
    if f.AddOrder? then ADD_ORDER else f.kind
  }

  function WriteFrame(f: Frame): (b: seq<byte>)
    requires Writable(f)
    ensures |b| == 3 + |Body(f)|
  {
    Store16(Bswap16(Length(f))) + [Kind(f)] + Body(f)
  }

  function Write(fs: seq<Frame>): seq<byte>
    requires forall i :: 0 <= i < |fs| ==> Writable(fs[i])
  {
    if fs == [] then [] else WriteFrame(fs[0]) + Write(fs[1..])
  }

  predicate InTenThousandths(price: real, count: bv32) {
    price * 10000.0 == count as int as real
  }

  /** The price that a count of ten-thousandths stands for. */
  ghost function Dollars(count: bv32): (price: real)
    ensures InTenThousandths(price, count)
  {
    assert InTenThousandths(count as int as real / 10000.0, count);
    var price :| InTenThousandths(price, count);
    price
  }

  /** The orders the frames stand for. */
  ghost function Meant(fs: seq<Frame>): seq<Parsed> {
    if fs == [] then []
    else
      (if fs[0].AddOrder?
       then [Parsed(fs[0].id, fs[0].timestamp, fs[0].side, fs[0].shares, fs[0].symbol, Dollars(fs[0].price))]
       else []) + Meant(fs[1..])
  }

  /** How many whole frames the first `n` bytes of a stream contain. */
  function Whole(fs: seq<Frame>, n: nat): (k: nat)
    requires forall i :: 0 <= i < |fs| ==> Writable(fs[i])
    ensures k <= |fs|
  {
    if fs == [] || n < |WriteFrame(fs[0])| then 0 else 1 + Whole(fs[1..], n - |WriteFrame(fs[0])|)
  }

  // ------------------------------------------------------------ symbols

  /** A symbol that survives the reader's space and length rules. */
  predicate Clean(symbol: seq<byte>) {
    |symbol| <= 7 && SPACE !in symbol && NUL !in symbol
  }

  lemma {:induction false} UpToStops(a: seq<byte>, b: seq<byte>, stop: byte)
    requires stop !in a && (b == [] || b[0] == stop)
    ensures UpTo(a + b, stop) == a
  {
    if a == [] {
      assert a + b == b;
    } else {
      TailOfConcat(a, b);
      UpToStops(a[1..], b, stop);
    }
  }

  lemma {:induction false} UpToAvoids(s: seq<byte>, stop: byte)
    ensures stop !in UpTo(s, stop) && |UpTo(s, stop)| <= |s|
    ensures forall c :: c in UpTo(s, stop) ==> c in s
  {
    if s != [] && s[0] != stop {
      UpToAvoids(s[1..], stop);
    }
  }

  /** A symbol that fits its field is read back unchanged exactly when it has at most
      seven characters, none of them a space. */
  lemma SymbolReadBackWhen(symbol: seq<byte>)
    requires Fits(symbol)
    ensures SymbolOf(Padded(symbol)) == symbol <==> Clean(symbol)
  {
    var text := UpTo(Padded(symbol), SPACE);
    UpToAvoids(Padded(symbol), SPACE);
    UpToAvoids(text, NUL);
    if SPACE !in symbol {
      UpToStops(symbol, seq(8 - |symbol|, _ => SPACE), SPACE);
      UpToStops(symbol, [], NUL);
      assert symbol + [] == symbol;
    }
  }

  // ------------------------------------------------------------ round trip

  /** Frames the reader gives back unchanged. */
  predicate Readable(f: Frame) {
    Writable(f) && (f.AddOrder? ==> Clean(f.symbol))
  }

  lemma FieldsInBody(f: Frame)
    requires Writable(f) && f.AddOrder?
    ensures var b := Body(f);
            && b[4..12] == Store64(Bswap64(f.timestamp))
            && b[12..20] == Store64(Bswap64(f.id))
            && b[20] == (if f.side.BUY? then BUY_MARK else SELL_MARK)
            && b[21..25] == Store32(Bswap32(f.shares))
            && b[25..33] == Padded(f.symbol)
            && b[33..37] == Store32(Bswap32(f.price))
  {
    hide Store16, Store32, Store64, Bswap16, Bswap32, Bswap64, Padded;
  }

  lemma PriceIsDollars(ticks: bv32)
    ensures PriceOf(ticks) == Dollars(ticks)
  {
  }

  lemma DecodeBody(f: Frame)
    requires Readable(f)
    ensures OrdersIn(Kind(f), Body(f)) == Meant([f])
  {
    if f.AddOrder? {
      FieldsInBody(f);
      SwapStoreLoadSwap(0, f.shares, f.id);
      SwapStoreLoadSwap(0, f.price, f.timestamp);
      SymbolReadBackWhen(f.symbol);
      PriceIsDollars(f.price);
      hide Body, Store32, Store64, Load32, Load64, Bswap32, Bswap64, SymbolOf, Padded, PriceOf;
      assert [f][1..] == [];
    }
  }

  lemma LengthOfFrame(f: Frame, rest: seq<byte>)
    requires Writable(f)
    ensures var b := WriteFrame(f) + rest;
            FrameLength(b) == 1 + |Body(f)| && b[2] == Kind(f)
            && b[3..3 + |Body(f)|] == Body(f) && b[3 + |Body(f)|..] == rest
  {
    hide Body, Load16, Store16, Bswap16;
    SwapStoreLoadSwap(Length(f), 0, 0);
    assert (WriteFrame(f) + rest)[..2] == Store16(Bswap16(Length(f)));
  }

  /** Reading a stream that starts with a written frame yields that frame's orders first. */
  lemma ParseFrame(f: Frame, rest: seq<byte>)
    requires Readable(f)
    ensures Parse(WriteFrame(f) + rest) == Prefixed(Meant([f]), Parse(rest))
  {
    hide FrameLength, WriteFrame, OrdersIn, Meant;
    LengthOfFrame(f, rest);
    DecodeBody(f);
  }

  /** A stream that ends inside its first frame yields nothing. */
  lemma ParseCutFrame(f: Frame, rest: seq<byte>, n: nat)
    requires Writable(f) && n < |WriteFrame(f)|
    ensures n <= |WriteFrame(f) + rest|
    ensures Parse((WriteFrame(f) + rest)[..n]) == Orders([])
  {
    hide FrameLength, WriteFrame, OrdersIn;
    LengthOfFrame(f, rest);
    if 3 <= n {
      SameLength(WriteFrame(f) + rest, n);
    }
  }

  lemma SameLength(b: seq<byte>, n: nat)
    requires 2 <= n <= |b|
    ensures FrameLength(b[..n]) == FrameLength(b)
  {
    assert b[..n][..2] == b[..2];
  }

  lemma MeantCons(f: Frame, fs: seq<Frame>)
    ensures Meant([f] + fs) == Meant([f]) + Meant(fs)
  {
    assert ([f] + fs)[1..] == fs;
    assert [f][1..] == [];
  }

  /** The first `n` bytes of what was written, for any `n`, read back as exactly the
      orders of the frames that lie wholly within them. */
  lemma {:induction false} TruncatedRoundTrip(fs: seq<Frame>, n: nat)
    requires forall i :: 0 <= i < |fs| ==> Writable(fs[i]) && Readable(fs[i])
    requires n <= |Write(fs)|
    ensures Parse(Write(fs)[..n]) == Orders(Meant(fs[..Whole(fs, n)]))
  {
    hide WriteFrame, Parse, Meant, Prefixed, Readable, Writable;
    if fs != [] {
      var f, rest := fs[0], Write(fs[1..]);
      var size := |WriteFrame(f)|;
      if n < size {
        ParseCutFrame(f, rest, n);
        NothingMeant();
      } else {
        var k := Whole(fs[1..], n - size);
        TruncatedRoundTrip(fs[1..], n - size);
        CutBehind(WriteFrame(f), rest, n);
        ParseFrame(f, rest[..n - size]);
        CutBehind([f], fs[1..], 1 + k);
        MeantCons(f, fs[1..][..k]);
        assert [f] + fs[1..] == fs;
        PrefixedOrders(Meant([f]), Meant(fs[1..][..k]));
      }
    } else {
      NothingMeant();
    }
  }

  lemma CutBehind<T>(a: seq<T>, b: seq<T>, n: nat)
    requires |a| <= n <= |a| + |b|
    ensures (a + b)[..n] == a + b[..n - |a|]
  {
  }

  lemma PrefixedOrders(a: seq<Parsed>, b: seq<Parsed>)
    ensures Prefixed(a, Orders(b)) == Orders(a + b)
  {
  }

  lemma NothingMeant()
    ensures Meant([]) == [] && Parse([]) == Orders([])
  {
  }

  lemma {:induction false} WholeStream(fs: seq<Frame>)
    requires forall i :: 0 <= i < |fs| ==> Writable(fs[i])
    ensures Whole(fs, |Write(fs)|) == |fs|
  {
    if fs != [] {
      WholeStream(fs[1..]);
    }
  }

  /** The reader inverts the writer. */
  lemma {:induction false} RoundTrip(fs: seq<Frame>)
    requires forall i :: 0 <= i < |fs| ==> Writable(fs[i]) && Readable(fs[i])
    ensures Parse(Write(fs)) == Orders(Meant(fs))
  {
    hide Parse, Write, Meant;
    WholeStream(fs);
    TruncatedRoundTrip(fs, |Write(fs)|);
    assert Write(fs)[..|Write(fs)|] == Write(fs) && fs[..|fs|] == fs;
  }

  lemma {:induction false} MeantAt(fs: seq<Frame>, i: nat)
    requires i < |fs| && fs[i].AddOrder?
    ensures |Meant(fs[..i])| < |Meant(fs)|
    ensures Meant(fs)[|Meant(fs[..i])|] == Meant([fs[i]])[0]
  {
    hide Dollars;
    if i > 0 {
      MeantAt(fs[1..], i - 1);
      assert fs[..i][1..] == fs[1..][..i - 1];
      assert fs[..i][0] == fs[0] && fs[1..][i - 1] == fs[i];
    }
  }

  /** Field by field: the reader gives back every written order, in turn, and at a price of as
      many ten-thousandths of a dollar as were written. */
  lemma ReadBack(fs: seq<Frame>, i: nat)
    requires forall j :: 0 <= j < |fs| ==> Writable(fs[j]) && Readable(fs[j])
    requires i < |fs| && fs[i].AddOrder?
    ensures var (r, k, f) := (Parse(Write(fs)), |Meant(fs[..i])|, fs[i]);
            && r.Orders? && k < |r.orders|
            && r.orders[k].id == f.id && r.orders[k].timestamp == f.timestamp && r.orders[k].side == f.side
            && r.orders[k].quantity == f.shares && r.orders[k].symbol == f.symbol
            && r.orders[k].price * 10000.0 == f.price as int as real
  {
    hide Parse, Write, Writable, Readable, Dollars;
    RoundTrip(fs);
    MeantAt(fs, i);
    assert [fs[i]][1..] == [];
  }

  // ------------------------------------------------------------ the wire format

  /** What an eight-byte symbol field says: the text before the first space or zero byte, and at
      most seven characters of it. */
  lemma SymbolText(stock: seq<byte>)
    requires |stock| == 8
    ensures var text := SymbolOf(stock);
            && |text| <= 7 && text == stock[..|text|]
            && 0x20 !in text && 0x00 !in text
            && (|text| < 7 ==> stock[|text|] == 0x20 || stock[|text|] == 0x00)
  {
    var text := UpTo(stock, SPACE);
    UpToStopsAt(stock, SPACE);
    UpToStopsAt(text, NUL);
    UpToAvoids(stock, SPACE);
    UpToAvoids(text, NUL);
  }

  lemma {:induction false} UpToStopsAt(s: seq<byte>, stop: byte)
    ensures var t := UpTo(s, stop); |t| <= |s| && t == s[..|t|] && (|t| < |s| ==> s[|t|] == stop)
  {
    if s != [] && s[0] != stop {
      UpToStopsAt(s[1..], stop);
    }
  }

  /** The payload of an Add Order message, byte by byte: numbers are big-endian, `B` marks a buy
      order, and the price counts ten-thousandths. */
  lemma {:induction false} PayloadOnWire(p: seq<byte>)
    requires 37 <= |p|
    ensures var o := Decode(p);
            && o.timestamp == Big64(p[4..12]) && o.id == Big64(p[12..20])
            && (o.side == if p[20] == 0x42 then BUY else SELL)
            && o.quantity == Big32(p[21..25]) && o.symbol == SymbolOf(p[25..33])
            && o.price * 10000.0 == Big32(p[33..37]) as int as real
  {
    hide Bswap16, Bswap32, Bswap64, Load16, Load32, Load64, Big16, Big32, Big64, SymbolOf;
    SwappedLoadIsBigEndian([0, 0], p[21..25], p[4..12]);
    SwappedLoadIsBigEndian([0, 0], p[33..37], p[12..20]);
  }

  /** The length field of the message that stands at a position: two bytes, the higher first. */
  function WireLength(bytes: seq<byte>, at: nat): nat
    requires at + 2 <= |bytes|
  {
    256 * (bytes[at] as nat) + bytes[at + 1] as nat
  }

  lemma BigSum(b: seq<byte>)
    requires |b| == 2
    ensures Big16(b) as nat == 256 * (b[0] as nat) + b[1] as nat
  {
    assert Big16(b) == 256 * (b[0] as bv16) + b[1] as bv16;
  }

  lemma LengthOnWire(bytes: seq<byte>, at: nat)
    requires at + 2 <= |bytes|
    ensures LengthAt(bytes, at) == WireLength(bytes, at)
  {
    hide Bswap16, Bswap32, Bswap64, Load16, Load32, Load64, Big16, Big32, Big64;
    SwappedLoadIsBigEndian(bytes[at..at + 2], [0, 0, 0, 0], [0, 0, 0, 0, 0, 0, 0, 0]);
    BigSum(bytes[at..at + 2]);
  }

  /** What becomes of the message that stands at a position: `A` with at least 37 bytes of payload
      is an order, anything else is skipped; one that is cut off ends the stream, and one of
      length zero makes the reader throw. */
  lemma MessageOnWire(bytes: seq<byte>, at: nat)
    requires at + 3 <= |bytes|
    ensures var length := WireLength(bytes, at);
            && (length == 0 ==> Parse(bytes[at..]) == LengthError)
            && (|bytes| < at + 2 + length ==> Parse(bytes[at..]) == Orders([]))
            && (0 < length <= |bytes| - at - 2 ==>
                  var rest := Parse(bytes[at + 2 + length..]);
                  Parse(bytes[at..])
                  == if bytes[at + 2] == 0x41 && 38 <= length
                     then Prefixed([Decode(bytes[at + 3..at + 2 + length])], rest)
                     else rest)
  {
    hide Parse, Prefixed, WireLength, LengthAt, Decode;
    ParseAt(bytes, at);
    LengthOnWire(bytes, at);
    var length := WireLength(bytes, at);
    if at + 2 + length <= |bytes| {
      NothingBefore(Parse(bytes[at + 2 + length..]));
    }
  }

  /** A frame of length zero makes the reader throw, whatever was read before it. */
  lemma {:induction false} ZeroLengthThrows(fs: seq<Frame>, kind: byte, rest: seq<byte>)
    requires forall i :: 0 <= i < |fs| ==> Writable(fs[i]) && Readable(fs[i])
    ensures Parse(Write(fs) + [0, 0, kind] + rest) == LengthError
  {
    hide WriteFrame, Parse, Readable, Writable, Meant;
    if fs == [] {
      ZeroFirst(kind, rest);
      assert [] + [0, 0, kind] == [0, 0, kind];
    } else {
      ZeroLengthThrows(fs[1..], kind, rest);
      ParseFrame(fs[0], Write(fs[1..]) + [0, 0, kind] + rest);
      Regrouped(WriteFrame(fs[0]), Write(fs[1..]), [0, 0, kind], rest);
    }
  }

  lemma Regrouped(a: seq<byte>, b: seq<byte>, c: seq<byte>, d: seq<byte>)
    ensures a + b + c + d == a + (b + c + d)
  {
  }

  lemma {:induction false} ZeroFirst(kind: byte, rest: seq<byte>)
    ensures Parse([0, 0, kind] + rest) == LengthError
  {
    var bytes := [0, 0, kind] + rest;
    assert bytes[0..] == bytes;
    MessageOnWire(bytes, 0);
    hide Parse;
  }
}
