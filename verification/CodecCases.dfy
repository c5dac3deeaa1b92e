/** The lines at which the wire format's expected laws fail. */
module CodecCases {
  import opened Wrappers
  import opened Text
  import opened Decimal
  import opened Messages
  import opened Codec
  import opened Stream

  // ----- what a line looks like

  lemma Digits()
    ensures Unsigned(1) == "1" && Unsigned(7) == "7" && Unsigned(12) == "12" && Unsigned(25) == "25" && Unsigned(0) == "0"
    ensures Signed(1) == "1" && Signed(-3) == "-3"
    ensures Fixed2(2500) == "25.00" && Fixed2(105) == "1.05" && Fixed2(-50) == "-0.50"
  {
  }

  function AllFields(state: string, msg: string): Message {
    Message(Resp, Telemetry, Some(12), Some(7), Some(1), Some(-3), Some(state), Some(msg), Some(2500), Some(105), Some(-50))
  }

  lemma FirstFields(state: string, msg: string)
    ensures UpToOk(AllFields(state, msg)) == "RESP TELEMETRY" + " dev=12" + " seq=7" + " ok=1"
  {
    Digits();
  }

  lemma TextFields(state: string, msg: string)
    ensures var m := AllFields(state, msg);
            Piece(m, KState) == " state=" + state && Piece(m, KCode) == " code=-3" && Piece(m, KMsg) == " msg=" + msg
  {
    Digits();
  }

  lemma NumberFields(state: string, msg: string)
    ensures var m := AllFields(state, msg);
            Piece(m, KTemp) == " temp=25.00" && Piece(m, KPressure) == " pressure=1.05" && Piece(m, KFlow) == " flow=-0.50"
  {
    Digits();
  }

  /** The line of a message with all its fields, byte by byte: their names, their order, their separators, and how numbers
      are written. */
  lemma LineLayout(state: string, msg: string)
    ensures Render(Message(Resp, Telemetry, Some(12), Some(7), Some(1), Some(-3), Some(state), Some(msg),
                           Some(2500), Some(105), Some(-50)))
         == "RESP TELEMETRY" + " dev=12" + " seq=7" + " ok=1" + (" state=" + state) + " code=-3" + (" msg=" + msg)
            + " temp=25.00" + " pressure=1.05" + " flow=-0.50" + "\n"
  {
    FirstFields(state, msg);
    TextFields(state, msg);
    NumberFields(state, msg);
  }

  /** The words of the types. */
  predicate IsWord(t: MsgType, word: string) {
    match t
    case Ping => word == "PING"
    case Register => word == "REGISTER"
    case Start => word == "START"
    case Stop => word == "STOP"
    case Status => word == "STATUS"
    case Reset => word == "RESET"
    case Fault => word == "FAULT"
    case Error => word == "ERROR"
    case Telemetry => word == "TELEMETRY"
    case Alarm => word == "ALARM"
    case UnknownType => false
  }

  /** The request line of every type, read. */
  lemma RequestLine(t: MsgType, word: string)
    requires IsWord(t, word)
    ensures Parse("REQ " + word + " dev=1 seq=7\n") == Some(Message(Req, t, Some(1), Some(7), None, None, None, None, None, None, None))
  {
    Digits();
    var m := Message(Req, t, Some(1), Some(7), None, None, None, None, None, None, None);
    assert TypeText(t) == word;
    assert Piece(m, KDev) == " dev=1" && Piece(m, KSeq) == " seq=7";
    RequestPieces(word);
    assert Render(m) == "REQ " + word + " dev=1 seq=7\n";
    FloatFreeSize(m);
    RoundTripExact(m);
  }

  lemma RequestPieces(word: string)
    ensures "REQ" + (" " + word) + " dev=1" + " seq=7" + "" + "" + "" + "" + "" + "" + "" + "\n" == "REQ " + word + " dev=1 seq=7\n"
  {
  }

  // ----- a carriage return inside a line

  const CR_LINE := "EVT STATUS msg=a\r ok=1\n"
  const CR_MESSAGE := Blank(Evt, Status).(msg := Some("a\r"), ok := Some(1))

  /** A token whose value is v, and what it assigns. */
  lemma ValueReads(b: string, acc: Message, k: Key, v: string, acc': Message)
    requires Reads(b, acc) && BlankFree(v) && acc' == Assign(acc, k, v)
    ensures Reads(b + (" " + (KeyText(k) + "=" + v)), acc')
  {
    KeyVocabulary(k);
    assert BlankFree(KeyText(k) + "=" + v);
    TokenReads(b, acc, k, v);
  }

  function CrText(): string {
    Head(Blank(Evt, Status)) + (" " + (KeyText(KMsg) + "=" + "a\r")) + (" " + (KeyText(KOk) + "=" + Signed(1)))
  }

  lemma CrReads()
    ensures Reads(CrText(), CR_MESSAGE)
  {
    var m0 := Blank(Evt, Status);
    var m1 := m0.(msg := Some("a\r"));
    HeadReads(m0);
    ValueReads(Head(m0), m0, KMsg, "a\r", m1);
    SignedReads(1);
    NumberText(1);
    ValueReads(Head(m0) + (" " + (KeyText(KMsg) + "=" + "a\r")), m1, KOk, Signed(1), CR_MESSAGE);
  }

  lemma CrTextIs()
    ensures CrText() == "EVT STATUS msg=a\r ok=1"
  {
    assert Signed(1) == "1";
  }

  lemma CrPlain()
    ensures var s := "EVT STATUS msg=a\r ok=1"; NulFree(s) && RStrip(s) == s && s + "\n" == CR_LINE
  {
    var s := "EVT STATUS msg=a\r ok=1";
    assert s[|s| - 1] == '1';
  }

  lemma CrLineParses()
    ensures Parse(CR_LINE) == Some(CR_MESSAGE)
  {
    var s := CrText();
    CrReads();
    CrTextIs();
    CrPlain();
    ParseOfText(s, CR_MESSAGE);
  }

  /** Accepted, printed and parsed again, this line has lost its carriage return: it moved to the end. */
  lemma NotCanonical()
    ensures Parse(CR_LINE) == Some(CR_MESSAGE) && !EndsClean(CR_MESSAGE)
    ensures Parse(Render(CR_MESSAGE)) == Some(CR_MESSAGE.(msg := Some("a")))
  {
    CrLineParses();
    CanonicalForm(CR_LINE);
    assert RStrip("a\r") == "a" by {
      RStripIs("a\r", "a");
    }
  }

  // ----- numbers that grow when they are printed

  lemma {:induction false} PowerDigits(k: nat)
    ensures |Unsigned(Pow10(k))| == k + 1
  {
    if k > 0 {
      PowerDigits(k - 1);
    }
  }

  /** 10^k, printed: a one and k zeros. */
  function Wide(k: nat): (s: string)
    ensures s != "" && AllDigits(s)
  {
    Unsigned(Pow10(k))
  }

  lemma WholeReads(a: nat)
    ensures StrToHundredths(Unsigned(a)) == 100 * a
  {
    ScanDigits(Unsigned(a), "");
    assert Unsigned(a) + "" == Unsigned(a);
    ValueOfUnsigned(a);
  }

  lemma WholePrints(a: nat)
    ensures |Fixed2(100 * a)| == |Unsigned(a)| + 3
  {
    assert 100 * a / 100 == a;
  }

  function WideBase(): Message {
    Blank(Resp, Status).(dev := Some(1), seqNo := Some(1))
  }

  /** A response with three numbers of k + 1 digits each, on one line. */
  function WideLine(k: nat): string {
    WideText(k) + "\n"
  }

  function WideText(k: nat): string {
    Body(WideBase()) + (" " + (KeyText(KTemp) + "=" + Wide(k))) + (" " + (KeyText(KPressure) + "=" + Wide(k)))
    + (" " + (KeyText(KFlow) + "=" + Wide(k)))
  }

  function WideMessage(k: nat): Message {
    var v := 100 * Pow10(k);
    WideBase().(temp := Some(v), pressure := Some(v), flow := Some(v))
  }

  lemma WideReads(k: nat)
    ensures Reads(WideText(k), WideMessage(k))
  {
    var m, v := WideBase(), 100 * Pow10(k);
    BodyReads(m);
    WideValue(Body(m), m, k, KTemp);
    var b := Body(m) + (" " + (KeyText(KTemp) + "=" + Wide(k)));
    WideValue(b, m.(temp := Some(v)), k, KPressure);
    WideValue(b + (" " + (KeyText(KPressure) + "=" + Wide(k))), m.(temp := Some(v), pressure := Some(v)), k, KFlow);
  }

  lemma WideValue(b: string, acc: Message, k: nat, key: Key)
    requires Reads(b, acc)
    ensures var v := Some(100 * Pow10(k));
            var b' := b + (" " + (KeyText(key) + "=" + Wide(k)));
            && (key == KTemp ==> Reads(b', acc.(temp := v)))
            && (key == KPressure ==> Reads(b', acc.(pressure := v)))
            && (key == KFlow ==> Reads(b', acc.(flow := v)))
  {
    WholeReads(Pow10(k));
    assert BlankFree(Wide(k));
    ValueReads(b, acc, key, Wide(k), Assign(acc, key, Wide(k)));
  }

  lemma WideStart()
    ensures UpToOk(WideBase()) == "RESP STATUS dev=1 seq=1"
  {
    Digits();
    var m := WideBase();
    assert Piece(m, KDev) == " dev=1" && Piece(m, KSeq) == " seq=1" && Piece(m, KOk) == "";
  }

  lemma WideBody()
    ensures Body(WideBase()) == "RESP STATUS dev=1 seq=1"
  {
    var m := WideBase();
    WideStart();
    NoFloats(m);
    NoPiece(UpToOk(m), m, KState);
    NoPiece(UpToOk(m), m, KCode);
    NoPiece(UpToOk(m), m, KMsg);
  }

  lemma WideSizes(k: nat)
    ensures |WideText(k)| == 3 * k + 48
    ensures |Render(WideMessage(k))| == 3 * k + 58
  {
    var m := WideMessage(k);
    WideBody();
    PowerDigits(k);
    WholePrints(Pow10(k));
    PieceLength(m, KTemp);
    PieceLength(m, KPressure);
    PieceLength(m, KFlow);
    NoFloats(WideBase());
    SameText(m, WideBase());
  }

  lemma SameText(m: Message, n: Message)
    requires m.(temp := n.temp, pressure := n.pressure, flow := n.flow) == n
    ensures UpToMsg(m) == UpToMsg(n)
  {
    assert Piece(m, KDev) == Piece(n, KDev) && Piece(m, KSeq) == Piece(n, KSeq) && Piece(m, KOk) == Piece(n, KOk);
    assert Piece(m, KState) == Piece(n, KState) && Piece(m, KCode) == Piece(n, KCode) && Piece(m, KMsg) == Piece(n, KMsg);
  }

  lemma WidePlain(k: nat)
    ensures NulFree(WideText(k)) && RStrip(WideText(k)) == WideText(k)
  {
    WideBody();
    WideToken(KTemp, k);
    WideToken(KPressure, k);
    WideToken(KFlow, k);
    var s, w := WideText(k), Wide(k);
    assert s[|s| - 1] == w[|w| - 1];
  }

  lemma WideToken(key: Key, k: nat)
    ensures NulFree(" " + (KeyText(key) + "=" + Wide(k)))
  {
    KeyVocabulary(key);
  }

  /** Up to 154 digits each the line is accepted; every number grows by ".00" when it is printed. */
  lemma WideParses(k: nat)
    requires k <= 153
    ensures |WideLine(k)| == 3 * k + 49 && Parse(WideLine(k)) == Some(WideMessage(k))
    ensures |Render(WideMessage(k))| == 3 * k + 58
  {
    WideSizes(k);
    WideReads(k);
    WidePlain(k);
    ParseOfText(WideText(k), WideMessage(k));
  }

  /** A 502-byte line is accepted and its message printed, on 511 bytes, but the printed line is refused. */
  lemma PrintedOnceReadNever()
    ensures |WideLine(151)| == 502 && Parse(WideLine(151)) == Some(WideMessage(151))
    ensures Format(WideMessage(151), SCRATCH) == Some(Render(WideMessage(151))) && Parse(Render(WideMessage(151))) == None
  {
    WideParses(151);
    ParseOfRender(WideMessage(151));
  }

  /** A 508-byte line is accepted, but its message cannot be printed into a 512-byte buffer. */
  lemma AcceptedNotPrinted()
    ensures |WideLine(153)| == 508 && Parse(WideLine(153)) == Some(WideMessage(153))
    ensures Format(WideMessage(153), SCRATCH) == None
  {
    WideParses(153);
  }

  // ----- a line that does not fit

  /** 600 letters and a newline block a 512-byte line buffer for good: here, the line that follows. */
  lemma LongLineBlocks()
    ensures var b := seq(600, _ => 'x') + "\n";
            Serve("", [b, "REQ PING seq=1\n"], 512) == Served([], b + "REQ PING seq=1\n", false)
  {
    var b := seq(600, _ => 'x') + "\n";
    IndexOfIs(b, LF, 600);
    StuckForever(b, ["REQ PING seq=1\n"], 512);
    assert "" + b == b;
    PopAppend(b, "REQ PING seq=1\n", 512);
    assert ["x", "REQ PING seq=1\n"][1..] == ["REQ PING seq=1\n"] && ["REQ PING seq=1\n"][1..] == [];
  }
}
