/** What line_parse and line_format compute, and how they undo each other. */
module Codec {
  import opened Wrappers
  import opened Ints
  import opened Text
  import opened Decimal
  import opened Messages

  const SCRATCH := 512 // sizeof(buf) in line_parse

  // ----- line_format

  /** The printed value of a field, if the message has it. */
  function FieldText(m: Message, k: Key): Option<string> {
    match k
    case KDev => (match m.dev case None => None case Some(v) => Some(Unsigned(v)))
    case KSeq => (match m.seqNo case None => None case Some(v) => Some(Unsigned(v)))
    case KOk => (match m.ok case None => None case Some(v) => Some(Signed(v)))
    case KCode => (match m.code case None => None case Some(v) => Some(Signed(v)))
    case KState => m.state
    case KMsg => m.msg
    case KTemp => (match m.temp case None => None case Some(v) => Some(Fixed2(v)))
    case KPressure => (match m.pressure case None => None case Some(v) => Some(Fixed2(v)))
    case KFlow => (match m.flow case None => None case Some(v) => Some(Fixed2(v)))
    case KUnknown => None
  }

  /** One snprintf of line_format: " key=value", or nothing. */
  function Piece(m: Message, k: Key): string {
    match FieldText(m, k)
    case None => ""
    case Some(v) => " " + (KeyText(k) + "=" + v)
  }

  function Head(m: Message): string {
    RoleText(m.role) + (" " + TypeText(m.typ))
  }

  function UpToOk(m: Message): string {
    Head(m) + Piece(m, KDev) + Piece(m, KSeq) + Piece(m, KOk)
  }

  function UpToMsg(m: Message): string {
    UpToOk(m) + Piece(m, KState) + Piece(m, KCode) + Piece(m, KMsg)
  }

  /** The line without its newline, in the fixed field order. */
  function Body(m: Message): string {
    UpToMsg(m) + Piece(m, KTemp) + Piece(m, KPressure) + Piece(m, KFlow)
  }

  function Render(m: Message): string {
    Body(m) + "\n"
  }

  /** line_format into a buffer of `cap` bytes; None is its -1. */
  function Format(m: Message, cap: nat): Option<string> {
    if cap < 8 || |Render(m)| + 1 > cap then None else Some(Render(m))
  }

  // ----- line_parse

  function Assign(m: Message, k: Key, v: string): Message {
    match k
    case KDev => m.(dev := Some(ToU32(StrToUlong(v))))
    case KSeq => m.(seqNo := Some(ToU32(StrToUlong(v))))
    case KOk => m.(ok := Some(ToI32(StrToLong(v))))
    case KCode => m.(code := Some(ToI32(StrToLong(v))))
    case KState => m.(state := Some(Take(v, STATE_MAX)))
    case KMsg => m.(msg := Some(Take(v, MSG_MAX)))
    case KTemp => m.(temp := Some(StrToHundredths(v)))
    case KPressure => m.(pressure := Some(StrToHundredths(v)))
    case KFlow => m.(flow := Some(StrToHundredths(v)))
    case KUnknown => m
  }

  /** One key=value token; a token without '=' changes nothing. */
  function ApplyToken(m: Message, tok: string): Message {
    var e := IndexOf(tok, '=');
    if e == |tok| then m else Assign(m, KeyFrom(tok[..e]), tok[e + 1..])
  }

  /** All tokens, the later ones over the earlier ones. */
  function ApplyAll(m: Message, ts: seq<string>): Message {
    if ts == [] then m else ApplyToken(ApplyAll(m, ts[..|ts| - 1]), ts[|ts| - 1])
  }

  /** The message described by the tokens of one line; None is line_parse's -1. */
  function ParseTokens(ts: seq<string>): Option<Message> {
    if |ts| < 2 || RoleFrom(ts[0]) == UnknownRole || TypeFrom(ts[1]) == UnknownType then None
    else Some(ApplyAll(Blank(RoleFrom(ts[0]), TypeFrom(ts[1])), ts[2..]))
  }

  function Parse(line: string): Option<Message> {
    var s := CString(line);
    if |s| == 0 || |s| >= SCRATCH - 1 then None else ParseTokens(Tokens(RStrip(s)))
  }

  // ----- one field: assigning a printed value restores it

  function Put(acc: Message, m: Message, k: Key): Message {
    match k
    case KDev => if m.dev.Some? then acc.(dev := m.dev) else acc
    case KSeq => if m.seqNo.Some? then acc.(seqNo := m.seqNo) else acc
    case KOk => if m.ok.Some? then acc.(ok := m.ok) else acc
    case KCode => if m.code.Some? then acc.(code := m.code) else acc
    case KState => if m.state.Some? then acc.(state := m.state) else acc
    case KMsg => if m.msg.Some? then acc.(msg := m.msg) else acc
    case KTemp => if m.temp.Some? then acc.(temp := m.temp) else acc
    case KPressure => if m.pressure.Some? then acc.(pressure := m.pressure) else acc
    case KFlow => if m.flow.Some? then acc.(flow := m.flow) else acc
    case KUnknown => acc
  }

  lemma AssignPrinted(acc: Message, m: Message, k: Key)
    requires Storable(m) && FieldText(m, k).Some?
    ensures Assign(acc, k, FieldText(m, k).value) == Put(acc, m, k)
  {
    match k
    case KDev => UnsignedReads(m.dev.value);
    case KSeq => UnsignedReads(m.seqNo.value);
    case KOk => SignedReads(m.ok.value);
    case KCode => SignedReads(m.code.value);
    case KTemp => Fixed2Reads(m.temp.value);
    case KPressure => Fixed2Reads(m.pressure.value);
    case KFlow => Fixed2Reads(m.flow.value);
    case _ =>
  }

  lemma ApplyKeyValue(acc: Message, k: Key, v: string)
    ensures ApplyToken(acc, KeyText(k) + "=" + v) == Assign(acc, k, v)
  {
    KeyVocabulary(k);
    var tok := KeyText(k) + "=" + v;
    assert forall i | 0 <= i < |KeyText(k)| :: tok[i] == KeyText(k)[i];
    IndexOfIs(tok, '=', |KeyText(k)|);
    assert tok[..|KeyText(k)|] == KeyText(k) && tok[|KeyText(k)| + 1..] == v;
  }

  lemma FieldBlankFree(m: Message, k: Key)
    requires TextBlankFree(m) && FieldText(m, k).Some?
    ensures BlankFree(KeyText(k) + "=" + FieldText(m, k).value)
  {
    KeyVocabulary(k);
    NumericField(m, k);
  }

  predicate IsTextKey(k: Key) {
    k == KState || k == KMsg
  }

  lemma NumericField(m: Message, k: Key)
    requires FieldText(m, k).Some?
    ensures !IsTextKey(k) ==>
              var v := FieldText(m, k).value;
              BlankFree(v) && NulFree(v) && LfFree(v) && v != "" && !IsEol(v[|v| - 1])
  {
    match k
    case KDev => NumberText(m.dev.value);
    case KSeq => NumberText(m.seqNo.value);
    case KOk => NumberText(m.ok.value);
    case KCode => NumberText(m.code.value);
    case KTemp => NumberText(m.temp.value);
    case KPressure => NumberText(m.pressure.value);
    case KFlow => NumberText(m.flow.value);
    case _ =>
  }

  // ----- a whole line

  /** The text b parses, token by token, to acc. */
  predicate Reads(b: string, acc: Message) {
    var ts := Tokens(b);
    |ts| >= 2 && ts[0] == RoleText(acc.role) && ts[1] == TypeText(acc.typ)
    && ApplyAll(Blank(acc.role, acc.typ), ts[2..]) == acc
  }

  lemma HeadReads(m: Message)
    ensures Reads(Head(m), Blank(m.role, m.typ))
  {
    Vocabulary(m.role, m.typ);
    TokensOfWord(RoleText(m.role));
    TokensSnoc(RoleText(m.role), TypeText(m.typ));
    assert Tokens(Head(m))[2..] == [];
  }

  /** One more key=value token on a line. */
  lemma TokenReads(b: string, acc: Message, k: Key, v: string)
    requires Reads(b, acc) && BlankFree(KeyText(k) + "=" + v)
    ensures Reads(b + (" " + (KeyText(k) + "=" + v)), Assign(acc, k, v))
  {
    var w := KeyText(k) + "=" + v;
    var ts := Tokens(b);
    TokensSnoc(b, w);
    assert (ts + [w])[2..] == ts[2..] + [w];
    assert (ts[2..] + [w])[..|ts[2..]|] == ts[2..];
    ApplyKeyValue(acc, k, v);
  }

  lemma PieceReads(b: string, acc: Message, m: Message, k: Key)
    requires Reads(b, acc) && Storable(m) && TextBlankFree(m)
    ensures Reads(b + Piece(m, k), Put(acc, m, k))
  {
    if FieldText(m, k).Some? {
      var v := FieldText(m, k).value;
      FieldBlankFree(m, k);
      TokenReads(b, acc, k, v);
      AssignPrinted(acc, m, k);
    } else {
      assert b + Piece(m, k) == b;
    }
  }

  function PutOk(m: Message): Message {
    Put(Put(Put(Blank(m.role, m.typ), m, KDev), m, KSeq), m, KOk)
  }

  function PutMsg(m: Message): Message {
    Put(Put(Put(PutOk(m), m, KState), m, KCode), m, KMsg)
  }

  /** Three consecutive pieces. */
  lemma PiecesRead(b: string, acc: Message, m: Message, k0: Key, k1: Key, k2: Key)
    requires Reads(b, acc) && Storable(m) && TextBlankFree(m)
    ensures Reads(b + Piece(m, k0) + Piece(m, k1) + Piece(m, k2), Put(Put(Put(acc, m, k0), m, k1), m, k2))
  {
    PieceReads(b, acc, m, k0);
    PieceReads(b + Piece(m, k0), Put(acc, m, k0), m, k1);
    PieceReads(b + Piece(m, k0) + Piece(m, k1), Put(Put(acc, m, k0), m, k1), m, k2);
  }

  lemma PutOkIs(m: Message)
    ensures PutOk(m) == Blank(m.role, m.typ).(dev := m.dev, seqNo := m.seqNo, ok := m.ok)
  {
  }

  lemma PutMsgIs(m: Message)
    ensures PutMsg(m) == PutOk(m).(state := m.state, code := m.code, msg := m.msg)
  {
    PutOkIs(m);
  }

  lemma PutAll(m: Message)
    ensures Put(Put(Put(PutMsg(m), m, KTemp), m, KPressure), m, KFlow) == m
  {
    PutOkIs(m);
    PutMsgIs(m);
  }

  lemma BodyReads(m: Message)
    requires Storable(m) && TextBlankFree(m)
    ensures Reads(Body(m), m)
  {
    HeadReads(m);
    PiecesRead(Head(m), Blank(m.role, m.typ), m, KDev, KSeq, KOk);
    PiecesRead(UpToOk(m), PutOk(m), m, KState, KCode, KMsg);
    PiecesRead(UpToMsg(m), PutMsg(m), m, KTemp, KPressure, KFlow);
    PutAll(m);
  }

  // ----- the trailing CR / LF of the last printed value

  /** What survives rstrip_crlf: the last printed value, when it is a text, loses trailing CR/LF. */
  function StripLast(m: Message): Message {
    if !FloatFree(m) then m
    else if m.msg.Some? then m.(msg := Some(RStrip(m.msg.value)))
    else if m.code.Some? || m.state.None? then m
    else m.(state := Some(RStrip(m.state.value)))
  }

  /** The last printed value does not end in CR or LF. */
  predicate EndsClean(m: Message) {
    FloatFree(m) ==>
      match m.msg
      case Some(v) => v == "" || !IsEol(v[|v| - 1])
      case None =>
        m.code.None? && m.state.Some? ==>
          m.state.value == "" || !IsEol(m.state.value[|m.state.value| - 1])
  }

  lemma StripLastId(m: Message)
    ensures StripLast(m) == m <==> EndsClean(m)
    ensures EndsClean(StripLast(m))
    ensures Storable(m) ==> Storable(StripLast(m))
    ensures TextBlankFree(m) ==> TextBlankFree(StripLast(m))
  {
  }

  lemma NumericEnd(b: string, m: Message, k: Key)
    requires !IsTextKey(k) && FieldText(m, k).Some?
    ensures RStrip(b + Piece(m, k)) == b + Piece(m, k)
  {
    NumericField(m, k);
    var p := b + Piece(m, k);
    assert p[|p| - 1] == FieldText(m, k).value[|FieldText(m, k).value| - 1];
  }

  lemma TextEnd(b: string, k: Key, v: string)
    ensures RStrip(b + (" " + (KeyText(k) + "=" + v))) == b + (" " + (KeyText(k) + "=" + RStrip(v)))
  {
    var p := b + (" " + (KeyText(k) + "="));
    assert p[|p| - 1] == '=';
    assert b + (" " + (KeyText(k) + "=" + v)) == p + v;
    assert b + (" " + (KeyText(k) + "=" + RStrip(v))) == p + RStrip(v);
    RStripConcat(p, v);
  }

  lemma NoPiece(b: string, m: Message, k: Key)
    requires FieldText(m, k).None?
    ensures b + Piece(m, k) == b
  {
  }

  lemma HeadEnd(m: Message)
    ensures RStrip(Head(m)) == Head(m)
  {
    var t := TypeText(m.typ);
    assert Head(m)[|Head(m)| - 1] == t[|t| - 1];
  }

  /** Appending a numeric field, present or not, keeps an end that rstrip_crlf leaves alone. */
  lemma KeepsEnd(b: string, m: Message, k: Key)
    requires !IsTextKey(k) && RStrip(b) == b
    ensures RStrip(b + Piece(m, k)) == b + Piece(m, k)
  {
    if FieldText(m, k).Some? {
      NumericEnd(b, m, k);
    } else {
      NoPiece(b, m, k);
    }
  }

  lemma OkEnd(m: Message)
    ensures RStrip(UpToOk(m)) == UpToOk(m)
  {
    HeadEnd(m);
    KeepsEnd(Head(m), m, KDev);
    KeepsEnd(Head(m) + Piece(m, KDev), m, KSeq);
    KeepsEnd(Head(m) + Piece(m, KDev) + Piece(m, KSeq), m, KOk);
  }

  lemma StateEnd(b: string, m: Message)
    requires RStrip(b) == b && FloatFree(m) && m.msg.None? && m.code.None?
    ensures RStrip(b + Piece(m, KState)) == b + Piece(StripLast(m), KState)
  {
    if m.state.Some? {
      TextEnd(b, KState, m.state.value);
    } else {
      NoPiece(b, m, KState);
    }
  }

  lemma CodeEnd(b: string, m: Message)
    requires RStrip(b) == b && FloatFree(m) && m.msg.None?
    ensures var m' := StripLast(m);
            RStrip(b + Piece(m, KState) + Piece(m, KCode)) == b + Piece(m', KState) + Piece(m', KCode)
  {
    var b' := b + Piece(m, KState);
    if m.code.Some? {
      NumericEnd(b', m, KCode);
    } else {
      NoPiece(b', m, KCode);
      StateEnd(b, m);
      NoPiece(b + Piece(StripLast(m), KState), StripLast(m), KCode);
    }
  }

  lemma MsgEnd(b: string, m: Message)
    requires RStrip(b) == b && FloatFree(m)
    ensures var m' := StripLast(m);
            RStrip(b + Piece(m, KState) + Piece(m, KCode) + Piece(m, KMsg))
            == b + Piece(m', KState) + Piece(m', KCode) + Piece(m', KMsg)
  {
    var b' := b + Piece(m, KState) + Piece(m, KCode);
    var m' := StripLast(m);
    if m.msg.Some? {
      TextEnd(b', KMsg, m.msg.value);
      assert Piece(m', KState) == Piece(m, KState) && Piece(m', KCode) == Piece(m, KCode);
    } else {
      NoPiece(b', m, KMsg);
      CodeEnd(b, m);
      NoPiece(b + Piece(m', KState) + Piece(m', KCode), m', KMsg);
    }
  }

  lemma BodyEnd(m: Message)
    ensures RStrip(Body(m)) == Body(StripLast(m))
  {
    if FloatFree(m) {
      NoFloats(m);
      NoFloats(StripLast(m));
      OkEnd(m);
      SameOk(m);
      MsgEnd(UpToOk(m), m);
    } else {
      FloatEnd(UpToMsg(m), m);
    }
  }

  lemma FloatEnd(b: string, m: Message)
    requires !FloatFree(m)
    ensures var p := b + Piece(m, KTemp) + Piece(m, KPressure) + Piece(m, KFlow); RStrip(p) == p
  {
    if m.temp.Some? {
      NumericEnd(b, m, KTemp);
      KeepsEnd(b + Piece(m, KTemp), m, KPressure);
      KeepsEnd(b + Piece(m, KTemp) + Piece(m, KPressure), m, KFlow);
    } else if m.pressure.Some? {
      NumericEnd(b + Piece(m, KTemp), m, KPressure);
      KeepsEnd(b + Piece(m, KTemp) + Piece(m, KPressure), m, KFlow);
    } else {
      NumericEnd(b + Piece(m, KTemp) + Piece(m, KPressure), m, KFlow);
    }
  }

  lemma NoFloats(m: Message)
    requires FloatFree(m)
    ensures Body(m) == UpToMsg(m)
  {
    var b := UpToMsg(m);
    NoPiece(b, m, KTemp);
    NoPiece(b + Piece(m, KTemp), m, KPressure);
    NoPiece(b + Piece(m, KTemp) + Piece(m, KPressure), m, KFlow);
  }

  lemma SameOk(m: Message)
    ensures UpToOk(StripLast(m)) == UpToOk(m)
  {
    var m' := StripLast(m);
    assert m'.role == m.role && m'.typ == m.typ && m'.dev == m.dev && m'.seqNo == m.seqNo && m'.ok == m.ok;
    assert Piece(m', KDev) == Piece(m, KDev) && Piece(m', KSeq) == Piece(m, KSeq) && Piece(m', KOk) == Piece(m, KOk);
  }

  // ----- NUL and length

  lemma PieceNulFree(m: Message, k: Key)
    requires Storable(m)
    ensures NulFree(Piece(m, k))
  {
    KeyVocabulary(k);
    if FieldText(m, k).Some? {
      NumericField(m, k);
    }
  }

  lemma NulFreeConcat(a: string, b: string)
    requires NulFree(a) && NulFree(b)
    ensures NulFree(a + b)
  {
  }

  lemma BodyNulFree(m: Message)
    requires Storable(m)
    ensures NulFree(Body(m))
  {
    Vocabulary(m.role, m.typ);
    forall k: Key
      ensures NulFree(Piece(m, k))
    {
      PieceNulFree(m, k);
    }
    assert NulFree(Head(m));
    NulFreeConcat(Head(m), Piece(m, KDev));
    NulFreeConcat(Head(m) + Piece(m, KDev), Piece(m, KSeq));
    NulFreeConcat(Head(m) + Piece(m, KDev) + Piece(m, KSeq), Piece(m, KOk));
    NulFreeConcat(UpToOk(m), Piece(m, KState));
    NulFreeConcat(UpToOk(m) + Piece(m, KState), Piece(m, KCode));
    NulFreeConcat(UpToOk(m) + Piece(m, KState) + Piece(m, KCode), Piece(m, KMsg));
    NulFreeConcat(UpToMsg(m), Piece(m, KTemp));
    NulFreeConcat(UpToMsg(m) + Piece(m, KTemp), Piece(m, KPressure));
    NulFreeConcat(UpToMsg(m) + Piece(m, KTemp) + Piece(m, KPressure), Piece(m, KFlow));
  }

  lemma RenderIsCString(m: Message)
    requires Storable(m)
    ensures CString(Render(m)) == Render(m) && |Render(m)| > 0
  {
    BodyNulFree(m);
    NulFreeConcat(Body(m), "\n");
    IndexOfIs(Render(m), NUL, |Render(m)|);
  }

  // ----- main results

  /** Parsing a printed line gives the message back, but for CR/LF at the very end of its last value; a line
      of more than 510 bytes, or one of an unknown role or type, is refused. */
  lemma ParseOfRender(m: Message)
    requires Storable(m) && TextBlankFree(m)
    ensures Parse(Render(m)) == if Known(m) && |Render(m)| <= SCRATCH - 2 then Some(StripLast(m)) else None
  {
    RenderIsCString(m);
    if |Render(m)| <= SCRATCH - 2 {
      ParseOfFitting(m);
    }
  }

  lemma ParseOfFitting(m: Message)
    requires Storable(m) && TextBlankFree(m) && |Render(m)| <= SCRATCH - 2
    ensures Parse(Render(m)) == if Known(m) then Some(StripLast(m)) else None
  {
    RenderIsCString(m);
    RStripNewline(Body(m));
    BodyEnd(m);
    var m' := StripLast(m);
    StripLastId(m);
    BodyReads(m');
    Vocabulary(m'.role, m'.typ);
  }

  lemma ApplyTokenRange(m: Message, t: string)
    requires Storable(m) && TextBlankFree(m)
    requires BlankFree(t) && NulFree(t)
    ensures var m' := ApplyToken(m, t);
            Storable(m') && TextBlankFree(m') && m'.role == m.role && m'.typ == m.typ
  {
    var e := IndexOf(t, '=');
    if e < |t| {
      AssignRange(m, KeyFrom(t[..e]), t[e + 1..]);
    }
  }

  lemma AssignRange(m: Message, k: Key, v: string)
    requires Storable(m) && TextBlankFree(m) && BlankFree(v) && NulFree(v)
    ensures var m' := Assign(m, k, v);
            Storable(m') && TextBlankFree(m') && m'.role == m.role && m'.typ == m.typ
  {
  }

  lemma {:induction false} ApplyAllRange(m: Message, ts: seq<string>)
    requires Storable(m) && TextBlankFree(m)
    requires forall t | t in ts :: BlankFree(t) && NulFree(t)
    ensures var m' := ApplyAll(m, ts);
            Storable(m') && TextBlankFree(m') && m'.role == m.role && m'.typ == m.typ
  {
    if ts != [] {
      var t := ts[|ts| - 1];
      assert t in ts;
      ApplyAllRange(m, ts[..|ts| - 1]);
      ApplyTokenRange(ApplyAll(m, ts[..|ts| - 1]), t);
    }
  }

  /** The characters of tokens come from the text. */
  lemma {:induction false} TokensChars(s: string, p: char -> bool)
    requires forall i | 0 <= i < |s| :: p(s[i])
    ensures forall t | t in Tokens(s) :: forall i | 0 <= i < |t| :: p(t[i])
    decreases |s|
  {
    if s != "" {
      if IsBlank(s[0]) {
        TokensChars(s[1..], p);
      } else {
        TokensChars(s[Span(s)..], p);
      }
    }
  }

  /** Everything line_parse accepts is a known, storable, blank-free message. */
  lemma ParseRange(line: string)
    requires Parse(line).Some?
    ensures var m := Parse(line).value; Storable(m) && Known(m) && TextBlankFree(m)
  {
    var s := RStrip(CString(line));
    var ts := Tokens(s);
    assert forall i | 0 <= i < |s| :: s[i] == line[i];
    TokensChars(s, c => c != NUL);
    forall t | t in ts[2..]
      ensures BlankFree(t) && NulFree(t)
    {
      assert t in ts;
    }
    ApplyAllRange(Blank(RoleFrom(ts[0]), TypeFrom(ts[1])), ts[2..]);
  }

  /** The wire round trip, exactly: which messages come back from their own printed line. */
  lemma RoundTripExact(m: Message)
    requires Storable(m)
    ensures Parse(Render(m)) == Some(m) <==>
            Known(m) && TextBlankFree(m) && EndsClean(m) && |Render(m)| <= SCRATCH - 2
  {
    RenderIsCString(m);
    StripLastId(m);
    if Known(m) && TextBlankFree(m) && |Render(m)| <= SCRATCH - 2 {
      ParseOfRender(m);
    } else if Parse(Render(m)).Some? {
      ParseRange(Render(m));
    }
  }

  /** Printed and read once more, the message is the same, and nothing refuses it on the way. */
  predicate SurvivesHop(m: Message) {
    Format(m, SCRATCH) == Some(Render(m)) && |Render(m)| <= SCRATCH - 2 && Parse(Render(m)) == Some(m)
  }

  /** Whatever was printed and read once survives every hop after that: only the first one can lose or change it. */
  lemma LaterHopsLoseNothing(m: Message)
    requires Storable(m) && TextBlankFree(m) && Parse(Render(m)).Some?
    ensures SurvivesHop(Parse(Render(m)).value)
    ensures |Render(Parse(Render(m)).value)| <= |Render(m)|
  {
    ParseOfRender(m);
    BodyEnd(m);
    var m' := StripLast(m);
    StripLastId(m);
    StripLastId(m');
    ParseOfRender(m');
  }

  // ----- sizes

  lemma PieceSize(m: Message, k: Key)
    requires Storable(m)
    ensures k == KDev || k == KSeq ==> |Piece(m, k)| <= 15
    ensures k == KOk ==> |Piece(m, k)| <= 15
    ensures k == KCode ==> |Piece(m, k)| <= 17
    ensures k == KState ==> |Piece(m, k)| <= 38
    ensures k == KMsg ==> |Piece(m, k)| <= 132
  {
    if FieldText(m, k).Some? {
      match k
      case KDev => UnsignedWidth(m.dev.value);
      case KSeq => UnsignedWidth(m.seqNo.value);
      case KOk => UnsignedWidth(if m.ok.value < 0 then -(m.ok.value as int) else m.ok.value);
      case KCode => UnsignedWidth(if m.code.value < 0 then -(m.code.value as int) else m.code.value);
      case _ =>
    }
  }

  lemma HeadSize(m: Message)
    ensures |RoleText(m.role)| + |TypeText(m.typ)| <= 13
  {
  }

  /** Every float-free message fits 247 bytes, so any buffer of 248 bytes or more will do. */
  lemma FloatFreeSize(m: Message)
    requires Storable(m) && FloatFree(m)
    ensures |Render(m)| <= 247
    ensures forall cap: nat | cap >= 248 :: Format(m, cap) == Some(Render(m))
  {
    HeadSize(m);
    PieceSize(m, KDev);
    PieceSize(m, KSeq);
    PieceSize(m, KOk);
    PieceSize(m, KState);
    PieceSize(m, KCode);
    PieceSize(m, KMsg);
    RenderLength(m);
  }

  // ----- canonical form

  /** Printing what was parsed and parsing again is the identity exactly when the last value is clean. */
  lemma CanonicalForm(line: string)
    requires Parse(line).Some? && FloatFree(Parse(line).value)
    ensures var m := Parse(line).value;
            && Parse(Render(m)) == Some(StripLast(m))
            && (Parse(Render(m)) == Some(m) <==> EndsClean(m))
            && Parse(Render(StripLast(m))) == Some(StripLast(m))
  {
    var m := Parse(line).value;
    ParseRange(line);
    FloatFreeSize(m);
    ParseOfRender(m);
    StripLastId(m);
    var m' := StripLast(m);
    FloatFreeSize(m');
    ParseOfRender(m');
    StripLastId(m');
  }

  predicate EolFree(s: string) {
    forall i | 0 <= i < |s| :: !IsEol(s[i])
  }

  predicate TextEolFree(m: Message) {
    (m.state.Some? ==> EolFree(m.state.value)) && (m.msg.Some? ==> EolFree(m.msg.value))
  }

  lemma ApplyTokenClean(m: Message, t: string)
    requires EolFree(t) && TextEolFree(m)
    ensures TextEolFree(ApplyToken(m, t))
  {
    var e := IndexOf(t, '=');
    if e < |t| {
      var v := t[e + 1..];
      assert EolFree(v);
      assert EolFree(Take(v, STATE_MAX)) && EolFree(Take(v, MSG_MAX));
    }
  }

  lemma {:induction false} ApplyAllClean(m: Message, ts: seq<string>)
    requires forall t | t in ts :: EolFree(t)
    requires TextEolFree(m)
    ensures TextEolFree(ApplyAll(m, ts))
  {
    if ts != [] {
      var t := ts[|ts| - 1];
      assert t in ts;
      ApplyAllClean(m, ts[..|ts| - 1]);
      ApplyTokenClean(ApplyAll(m, ts[..|ts| - 1]), t);
    }
  }

  /** A line whose only CR/LF are at its end, as the framing layer delivers it, is always canonical. */
  lemma CanonicalSessionLine(line: string)
    requires Parse(line).Some? && FloatFree(Parse(line).value)
    requires EolFree(RStrip(CString(line)))
    ensures Parse(Render(Parse(line).value)) == Parse(line)
  {
    var s := RStrip(CString(line));
    var ts := Tokens(s);
    TokensChars(s, c => !IsEol(c));
    forall t | t in ts[2..]
      ensures EolFree(t)
    {
      assert t in ts;
    }
    ApplyAllClean(Blank(RoleFrom(ts[0]), TypeFrom(ts[1])), ts[2..]);
    CanonicalForm(line);
  }

  // ----- redundant tokens

  /** The key a token assigns; KUnknown when it assigns nothing. */
  function TokenKey(tok: string): Key {
    var e := IndexOf(tok, '=');
    if e == |tok| then KUnknown else KeyFrom(tok[..e])
  }

  function Cleared(m: Message, k: Key): Message {
    match k
    case KDev => m.(dev := None)
    case KSeq => m.(seqNo := None)
    case KOk => m.(ok := None)
    case KCode => m.(code := None)
    case KState => m.(state := None)
    case KMsg => m.(msg := None)
    case KTemp => m.(temp := None)
    case KPressure => m.(pressure := None)
    case KFlow => m.(flow := None)
    case KUnknown => m
  }

  /** Equal but for the field of k. */
  predicate SameBut(a: Message, b: Message, k: Key) {
    Cleared(a, k) == Cleared(b, k)
  }

  lemma AssignCleared(m: Message, k: Key, v: string)
    ensures Assign(m, k, v) == Assign(Cleared(m, k), k, v)
    ensures SameBut(Assign(m, k, v), m, k)
  {
  }

  lemma ClearedCommutes(m: Message, k: Key, j: Key, v: string)
    requires j != k
    ensures Cleared(Assign(m, j, v), k) == Assign(Cleared(m, k), j, v)
  {
  }

  lemma SameButStep(a: Message, b: Message, k: Key, t: string)
    requires SameBut(a, b, k)
    ensures SameBut(ApplyToken(a, t), ApplyToken(b, t), k)
    ensures TokenKey(t) == k ==> ApplyToken(a, t) == ApplyToken(b, t)
  {
    var e := IndexOf(t, '=');
    if e < |t| {
      var v := t[e + 1..];
      if TokenKey(t) == k {
        AssignCleared(a, k, v);
        AssignCleared(b, k, v);
      } else {
        ClearedCommutes(a, k, TokenKey(t), v);
        ClearedCommutes(b, k, TokenKey(t), v);
      }
    }
  }

  lemma {:induction false} SameButAll(a: Message, b: Message, k: Key, ts: seq<string>)
    requires SameBut(a, b, k)
    ensures SameBut(ApplyAll(a, ts), ApplyAll(b, ts), k)
    ensures k == KUnknown || (exists t | t in ts :: TokenKey(t) == k) ==> ApplyAll(a, ts) == ApplyAll(b, ts)
  {
    if ts != [] {
      var init, t := ts[..|ts| - 1], ts[|ts| - 1];
      SameButAll(a, b, k, init);
      SameButStep(ApplyAll(a, init), ApplyAll(b, init), k, t);
    }
  }

  lemma {:induction false} ApplyAllConcat(m: Message, xs: seq<string>, ys: seq<string>)
    ensures ApplyAll(m, xs + ys) == ApplyAll(ApplyAll(m, xs), ys)
  {
    if ys == [] {
      assert xs + ys == xs;
    } else {
      assert (xs + ys)[..|xs + ys| - 1] == xs + ys[..|ys| - 1];
      ApplyAllConcat(m, xs, ys[..|ys| - 1]);
    }
  }

  /** Deleting a token whose key is unknown, missing, or assigned again later changes nothing. */
  lemma RedundantToken(ts: seq<string>, tok: string, us: seq<string>)
    requires |ts| >= 2
    requires TokenKey(tok) == KUnknown || exists u | u in us :: TokenKey(u) == TokenKey(tok)
    ensures ParseTokens(ts + [tok] + us) == ParseTokens(ts + us)
  {
    var m := Blank(RoleFrom(ts[0]), TypeFrom(ts[1]));
    var xs := ts[2..];
    assert (ts + [tok] + us)[2..] == xs + [tok] + us && (ts + us)[2..] == xs + us;
    ApplyAllConcat(m, xs + [tok], us);
    ApplyAllConcat(m, xs, us);
    assert (xs + [tok])[..|xs|] == xs;
    var a := ApplyAll(m, xs);
    if TokenKey(tok) != KUnknown {
      AssignCleared(a, TokenKey(tok), tok[IndexOf(tok, '=') + 1..]);
    }
    SameButAll(ApplyToken(a, tok), a, TokenKey(tok), us);
  }

  lemma ParseTerminated(s: string)
    requires NulFree(s) && |s| + 1 <= SCRATCH - 2
    ensures Parse(s + "\n") == ParseTokens(Tokens(RStrip(s)))
    ensures EolFree(s) ==> RStrip(s) == s
  {
    var l := s + "\n";
    assert NulFree(l);
    IndexOfIs(l, NUL, |l|);
    assert CString(l) == l;
    RStripNewline(s);
  }

  /** A text that reads as a message, on a line of its own. */
  lemma ParseOfText(s: string, m: Message)
    requires Reads(s, m) && Known(m)
    requires NulFree(s) && RStrip(s) == s && |s| + 1 <= SCRATCH - 2
    ensures Parse(s + "\n") == Some(m)
  {
    ParseTerminated(s);
    Vocabulary(m.role, m.typ);
  }

  lemma PlainConcat(a: string, b: string)
    requires NulFree(a) && NulFree(b) && EolFree(a) && EolFree(b)
    ensures NulFree(a + b) && EolFree(a + b)
  {
  }

  /** Forward compatibility on lines: inserting a redundant token after role and type is invisible. */
  lemma ForwardCompatible(a: string, tok: string, b: string)
    requires tok != "" && BlankFree(tok) && (b == "" || IsBlank(b[0]))
    requires NulFree(a) && NulFree(tok) && NulFree(b) && EolFree(a) && EolFree(tok) && EolFree(b)
    requires |a| + |tok| + |b| + 2 <= SCRATCH - 2
    requires |Tokens(a)| >= 2
    requires TokenKey(tok) == KUnknown || exists u | u in Tokens(b) :: TokenKey(u) == TokenKey(tok)
    ensures Parse(a + (" " + tok) + b + "\n") == Parse(a + b + "\n")
  {
    var a' := a + (" " + tok);
    PlainConcat(" ", tok);
    PlainConcat(a, " " + tok);
    PlainConcat(a', b);
    PlainConcat(a, b);
    ParseTerminated(a' + b);
    ParseTerminated(a + b);
    TokensConcat(a', b);
    TokensSnoc(a, tok);
    TokensConcat(a, b);
    RedundantToken(Tokens(a), tok, Tokens(b));
  }

  // ----- key order

  lemma AssignCommutes(m: Message, j: Key, v: string, k: Key, w: string)
    requires j != k
    ensures Assign(Assign(m, j, v), k, w) == Assign(Assign(m, k, w), j, v)
  {
    var a, b := Assign(Blank(Req, Ping), j, v), Assign(Blank(Req, Ping), k, w);
    AssignIsPut(m, j, v);
    AssignIsPut(m, k, w);
    AssignIsPut(Put(m, a, j), k, w);
    AssignIsPut(Put(m, b, k), j, v);
    PutsCommute(m, a, j, b, k);
  }

  /** Assigning copies one field of a message that has only this one. */
  lemma AssignIsPut(m: Message, k: Key, v: string)
    ensures Assign(m, k, v) == Put(m, Assign(Blank(Req, Ping), k, v), k)
  {
  }

  lemma PutsCommute(m: Message, a: Message, j: Key, b: Message, k: Key)
    requires j != k
    ensures Put(Put(m, a, j), b, k) == Put(Put(m, b, k), a, j)
  {
  }

  lemma TokensCommute(m: Message, s: string, t: string)
    requires TokenKey(s) != TokenKey(t) || TokenKey(s) == KUnknown
    ensures ApplyToken(ApplyToken(m, s), t) == ApplyToken(ApplyToken(m, t), s)
  {
    var d, e := IndexOf(s, '='), IndexOf(t, '=');
    if d < |s| && e < |t| && TokenKey(s) != TokenKey(t) {
      AssignCommutes(m, TokenKey(s), s[d + 1..], TokenKey(t), t[e + 1..]);
    }
  }

  lemma ApplyTwo(m: Message, s: string, t: string)
    ensures ApplyAll(m, [s, t]) == ApplyToken(ApplyToken(m, s), t)
  {
    assert [s, t][..1] == [s] && [s][..0] == [];
    assert ApplyAll(m, [s]) == ApplyToken(m, s);
  }

  /** Key order vanishes: neighbouring tokens with different keys, or without a known one, can be swapped. */
  lemma SwappedTokens(ts: seq<string>, s: string, t: string, us: seq<string>)
    requires |ts| >= 2
    requires TokenKey(s) != TokenKey(t) || TokenKey(s) == KUnknown
    ensures ParseTokens(ts + [s, t] + us) == ParseTokens(ts + [t, s] + us)
  {
    var m := Blank(RoleFrom(ts[0]), TypeFrom(ts[1]));
    var xs := ts[2..];
    assert (ts + [s, t] + us)[2..] == xs + [s, t] + us && (ts + [t, s] + us)[2..] == xs + [t, s] + us;
    ApplyAllConcat(m, xs + [s, t], us);
    ApplyAllConcat(m, xs, [s, t]);
    ApplyAllConcat(m, xs + [t, s], us);
    ApplyAllConcat(m, xs, [t, s]);
    var a := ApplyAll(m, xs);
    ApplyTwo(a, s, t);
    ApplyTwo(a, t, s);
    TokensCommute(a, s, t);
  }

  lemma TwoTokens(a: string, s: string, t: string, b: string)
    requires s != "" && t != "" && BlankFree(s) && BlankFree(t) && (b == "" || IsBlank(b[0]))
    ensures Tokens(a + (" " + s) + (" " + t) + b) == Tokens(a) + [s, t] + Tokens(b)
  {
    var a' := a + (" " + s);
    TokensConcat(a' + (" " + t), b);
    TokensSnoc(a', t);
    TokensSnoc(a, s);
    assert Tokens(a) + [s] + [t] == Tokens(a) + [s, t];
  }

  /** The same on lines. */
  lemma KeyOrderVanishes(a: string, s: string, t: string, b: string)
    requires s != "" && t != "" && BlankFree(s) && BlankFree(t) && (b == "" || IsBlank(b[0]))
    requires forall x | x in [a, s, t, b] :: NulFree(x) && EolFree(x)
    requires |a| + |s| + |t| + |b| + 3 <= SCRATCH - 2
    requires |Tokens(a)| >= 2
    requires TokenKey(s) != TokenKey(t) || TokenKey(s) == KUnknown
    ensures Parse(a + (" " + s) + (" " + t) + b + "\n") == Parse(a + (" " + t) + (" " + s) + b + "\n")
  {
    PlainTokens(a, s, t, b);
    PlainTokens(a, t, s, b);
    ParseTerminated(a + (" " + s) + (" " + t) + b);
    ParseTerminated(a + (" " + t) + (" " + s) + b);
    TwoTokens(a, s, t, b);
    TwoTokens(a, t, s, b);
    SwappedTokens(Tokens(a), s, t, Tokens(b));
  }

  lemma PlainTokens(a: string, s: string, t: string, b: string)
    requires forall x | x in [a, s, t, b] :: NulFree(x) && EolFree(x)
    ensures var l := a + (" " + s) + (" " + t) + b; NulFree(l) && EolFree(l)
  {
    assert a in [a, s, t, b] && s in [a, s, t, b] && t in [a, s, t, b] && b in [a, s, t, b];
    PlainConcat(" ", s);
    PlainConcat(" ", t);
    PlainConcat(a, " " + s);
    PlainConcat(a + (" " + s), " " + t);
    PlainConcat(a + (" " + s) + (" " + t), b);
  }

  // ----- limits that do not meet

  /** The bound is tight: a message with its widest fields needs all 247 bytes, and 247 are not enough room. */
  lemma SizeBoundIsTight(m: Message)
    requires m.role == Resp && m.typ == Telemetry && FloatFree(m)
    requires m.dev == Some(0xFFFF_FFFF) && m.seqNo == Some(0xFFFF_FFFF)
    requires m.ok == Some(-0x8000_0000) && m.code == Some(-0x8000_0000)
    requires m.state.Some? && |m.state.value| == STATE_MAX && m.msg.Some? && |m.msg.value| == MSG_MAX
    ensures |Render(m)| == 247 && Format(m, 247) == None
  {
    WidestNumbers(m);
    WidestTexts(m);
    RenderLength(m);
  }

  lemma WidestTexts(m: Message)
    requires m.role == Resp && m.typ == Telemetry
    requires m.state.Some? && |m.state.value| == STATE_MAX && m.msg.Some? && |m.msg.value| == MSG_MAX
    ensures |RoleText(m.role)| + |TypeText(m.typ)| == 13
    ensures |Piece(m, KState)| == 38 && |Piece(m, KMsg)| == 132
  {
    PieceLength(m, KState);
    PieceLength(m, KMsg);
  }

  lemma RenderLength(m: Message)
    requires FloatFree(m)
    ensures |Render(m)| == |RoleText(m.role)| + |TypeText(m.typ)| + 2 + |Piece(m, KDev)| + |Piece(m, KSeq)| + |Piece(m, KOk)|
                           + |Piece(m, KState)| + |Piece(m, KCode)| + |Piece(m, KMsg)|
  {
    NoFloats(m);
    BodyLength(m);
  }

  lemma PieceLength(m: Message, k: Key)
    requires FieldText(m, k).Some?
    ensures |Piece(m, k)| == |KeyText(k)| + |FieldText(m, k).value| + 2
  {
  }

  lemma BodyLength(m: Message)
    ensures |UpToMsg(m)| == |RoleText(m.role)| + 1 + |TypeText(m.typ)| + |Piece(m, KDev)| + |Piece(m, KSeq)| + |Piece(m, KOk)|
                            + |Piece(m, KState)| + |Piece(m, KCode)| + |Piece(m, KMsg)|
  {
  }

  lemma WidestNumbers(m: Message)
    requires m.dev == Some(0xFFFF_FFFF) && m.seqNo == Some(0xFFFF_FFFF)
    requires m.ok == Some(-0x8000_0000) && m.code == Some(-0x8000_0000)
    ensures |Piece(m, KDev)| == 15 && |Piece(m, KSeq)| == 15 && |Piece(m, KOk)| == 15 && |Piece(m, KCode)| == 17
  {
    TenDigits(0xFFFF_FFFF);
    TenDigits(0x8000_0000);
    PieceLength(m, KDev);
    PieceLength(m, KSeq);
    PieceLength(m, KOk);
    PieceLength(m, KCode);
  }

  lemma {:induction false} UnsignedLengthLow(n: nat, k: nat)
    requires Pow10(k) <= n
    ensures |Unsigned(n)| > k
  {
    if k > 0 {
      UnsignedLengthLow(n / 10, k - 1);
    }
  }

  lemma TenDigits(n: nat)
    requires 1_000_000_000 <= n < TWO_32
    ensures |Unsigned(n)| == 10
  {
    assert Pow10(4) == 10_000;
    assert Pow10(9) == 1_000_000_000;
    UnsignedLengthLow(n, 9);
    UnsignedWidth(n);
  }

  /** With a 512-byte buffer line_format can print a 511-byte line; line_parse refuses exactly those. */
  lemma PrintedButUnreadable(m: Message)
    requires Storable(m) && Known(m) && TextBlankFree(m) && EndsClean(m)
    requires Format(m, SCRATCH).Some?
    ensures Parse(Format(m, SCRATCH).value) == (if |Render(m)| == SCRATCH - 1 then None else Some(m))
  {
    RenderIsCString(m);
    RoundTripExact(m);
  }
}
