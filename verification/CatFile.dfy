/** The length-prefixed answer of "git cat-file --batch", and how it is taken apart. */
module CatFile {
  import opened Prelude

  const NEWLINE: byte := 10
  const SPACE: byte := 32
  const MINUS: byte := 45
  const PLUS: byte := 43
  const UNDERSCORE: byte := 95
  const MISSING: bytes := [109, 105, 115, 115, 105, 110, 103]

  datatype ParseError =
    | TruncatedHeader
    | MissingObject(objectId: bytes)
    | BadHeader
    | NotAscii
    | NotANumber
    | TruncatedPayload(objectId: bytes)
    | MissingNewline(objectId: bytes)
    | OmittedObject(objectId: bytes)

  datatype Result<+T> = Ok(value: T) | Err(error: ParseError)

  type Blobs = map<bytes, bytes>

  // ---- fields and numbers -----------------------------------------------------------------

  predicate White(b: byte) {
    b == 32 || 9 <= b <= 13
  }

  predicate Solid(token: bytes) {
    token != [] && forall i :: 0 <= i < |token| ==> !White(token[i])
  }

  predicate Ascii(s: bytes) {
    forall i :: 0 <= i < |s| ==> s[i] < 128
  }

  function TokenLength(s: bytes): (n: nat)
    ensures n <= |s|
  {
    if s == [] || White(s[0]) then 0 else 1 + TokenLength(s[1..])
  }

  /** Python's split(): the maximal runs without white space. */
  function Fields(s: bytes): seq<bytes>
    decreases |s|
  {
    if s == [] then []
    else if White(s[0]) then Fields(s[1..])
    else [s[..TokenLength(s)]] + Fields(s[TokenLength(s)..])
  }

  function IndexOfNewline(s: bytes): (r: Option<nat>)
    ensures r.Some? ==> r.value < |s| && s[r.value] == NEWLINE && forall i :: 0 <= i < r.value ==> s[i] != NEWLINE
    ensures r.None? ==> forall i :: 0 <= i < |s| ==> s[i] != NEWLINE
  {
    if s == [] then None
    else if s[0] == NEWLINE then Some(0)
    else
      var rest := IndexOfNewline(s[1..]);
      if rest.None? then None else Some(rest.value + 1)
  }

  predicate IsDigit(b: byte) {
    48 <= b <= 57
  }

  /** Digits, with single underscores allowed between them. */
  function ParseDigits(s: bytes): Option<nat> {
    if s == [] || !IsDigit(s[|s| - 1]) then None
    else
      var d := s[|s| - 1] - 48;
      if |s| == 1 then Some(d)
      else
        var front := s[..|s| - 1];
        var before := ParseDigits(if front[|front| - 1] == UNDERSCORE then front[..|front| - 1] else front);
        if before.None? then None else Some(10 * before.value + d)
  }

  /** Python's int(): an optional sign and digits. */
  function ParseInt(s: bytes): Option<int> {
    if s == [] then None
    else if s[0] == MINUS || s[0] == PLUS then
      var digits := ParseDigits(s[1..]);
      if digits.None? then None
      else
        var value: int := if s[0] == MINUS then 0 - digits.value else digits.value;
        Some(value)
    else
      var digits := ParseDigits(s);
      if digits.None? then None else Some(digits.value)
  }

  /** A blank, a tab or one of the line breaks and feeds next to it. */
  predicate Blank(b: byte) {
    b in {9, 10, 11, 12, 13, 32}
  }

  /** White space in front is skipped, and a run without any up to the next white space is one field. */
  lemma FieldsExactly(token: bytes, b: byte, rest: bytes)
    requires Blank(b) && token != [] && forall i :: 0 <= i < |token| ==> !Blank(token[i])
    ensures Fields([b] + rest) == Fields(rest)
    ensures Fields(token) == [token] && Fields(token + [b] + rest) == [token] + Fields(rest)
  {
    assert ([b] + rest)[1..] == rest;
    FirstField(token, []);
    assert token + [] == token;
    FirstField(token, [b] + rest);
    assert token + [b] + rest == token + ([b] + rest);
  }

  /** Digits at both ends, nothing but digits and underscores between, and no underscore next to another. */
  predicate NumberText(s: bytes) {
    && s != [] && 48 <= s[0] <= 57 && 48 <= s[|s| - 1] <= 57
    && (forall i :: 0 <= i < |s| ==> 48 <= s[i] <= 57 || s[i] == 95)
    && (forall i :: 0 < i < |s| ==> s[i] != 95 || s[i - 1] != 95)
  }

  /** The number the digits denote, underscores passed over. */
  function Worth(s: bytes): int {
    if s == [] then 0
    else if s[|s| - 1] == 95 then Worth(s[..|s| - 1])
    else 10 * Worth(s[..|s| - 1]) + (s[|s| - 1] as int - 48)
  }

  /** What precedes the last digit, and the underscore in front of it. */
  function Preceding(s: bytes): bytes
    requires |s| > 1
  {
    var front := s[..|s| - 1];
    if front[|front| - 1] == 95 then front[..|front| - 1] else front
  }

  lemma WorthLonger(s: bytes)
    requires |s| > 1 && 48 <= s[|s| - 1] <= 57
    ensures Worth(s) == 10 * Worth(Preceding(s)) + (s[|s| - 1] as int - 48)
  {
  }

  lemma NumberLonger(s: bytes)
    requires |s| > 1 && 48 <= s[|s| - 1] <= 57 && NumberText(Preceding(s))
    ensures NumberText(s)
  {
    var p := Preceding(s);
    forall i | 0 <= i < |p| ensures p[i] == s[i] {}
    forall i | 0 <= i < |s| ensures 48 <= s[i] <= 57 || s[i] == 95 {
      if i < |p| { assert p[i] == s[i]; }
    }
    forall i | 0 < i < |s| ensures s[i] != 95 || s[i - 1] != 95 {
      if i < |p| { assert p[i] == s[i] && p[i - 1] == s[i - 1]; }
    }
  }

  lemma NumberShorter(s: bytes)
    requires |s| > 1 && NumberText(s)
    ensures NumberText(Preceding(s))
  {
    var p := Preceding(s);
    forall i | 0 <= i < |p| ensures p[i] == s[i] {}
    assert s[|s| - 2] == 95 ==> |s| > 2 && s[|s| - 3] != 95;
  }

  /** These are the numbers Python reads, underscores included. */
  lemma {:induction false} DigitsExactly(s: bytes)
    ensures ParseDigits(s).Some? <==> NumberText(s)
    ensures ParseDigits(s).Some? ==> ParseDigits(s).value == Worth(s)
    decreases |s|
  {
    hide NumberText, Worth;
    if |s| > 1 && IsDigit(s[|s| - 1]) {
      WorthLonger(s);
      if NumberText(s) { NumberShorter(s); }
      if NumberText(Preceding(s)) { NumberLonger(s); }
      DigitsExactly(Preceding(s));
    } else {
      SingleDigit(s);
    }
  }

  lemma SingleDigit(s: bytes)
    requires |s| <= 1 || !IsDigit(s[|s| - 1])
    ensures ParseDigits(s).Some? <==> NumberText(s)
    ensures ParseDigits(s).Some? ==> ParseDigits(s).value == Worth(s)
  {
  }

  /** One sign may stand in front of them. */
  lemma IntExactly(s: bytes)
    ensures s == [] ==> ParseInt(s) == None
    ensures s != [] ==>
              var digits := if s[0] == 43 || s[0] == 45 then s[1..] else s;
              && (ParseInt(s).Some? <==> NumberText(digits))
              && (ParseInt(s).Some? ==> ParseInt(s).value == if s[0] == 45 then 0 - Worth(digits) else Worth(digits))
  {
    hide NumberText, Worth, ParseDigits;
    DigitsExactly(s);
    if s != [] { DigitsExactly(s[1..]); }
  }

  // ---- the parser ----------------------------------------------------------------------------

  datatype Piece = Piece(objectId: bytes, content: bytes, length: nat)

  /** Who the header is about and how much content follows it. */
  function ReadHeader(header: bytes): Result<(bytes, int)> {
    var parts := Fields(header);
    if |parts| == 2 && parts[1] == MISSING then Err(if Ascii(parts[0]) then MissingObject(parts[0]) else NotAscii)
    else if |parts| != 3 then Err(BadHeader)
    else if !Ascii(parts[0]) then Err(NotAscii)
    else
      var size := ParseInt(parts[2]);
      if size.None? then Err(NotANumber) else Ok((parts[0], size.value))
  }

  /** One record off the front. */
  function ReadRecord(s: bytes): (r: Result<Piece>)
    ensures r.Ok? ==> 0 < r.value.length <= |s|
  {
    var newline := IndexOfNewline(s);
    if newline.None? then Err(TruncatedHeader)
    else
      var header := ReadHeader(s[..newline.value]);
      if header.Err? then Err(header.error)
      else
        var (objectId, size) := header.value;
        var body := s[newline.value + 1..];
        if !(0 <= size <= |body|) then Err(TruncatedPayload(objectId))
        else if size == |body| || body[size] != NEWLINE then Err(MissingNewline(objectId))
        else Ok(Piece(objectId, body[..size], newline.value + size + 2))
  }

  function ParseRecords(s: bytes, blobs: Blobs): Result<Blobs>
    decreases |s|
  {
    if s == [] then Ok(blobs)
    else
      var r := ReadRecord(s);
      if r.Err? then Err(r.error)
      else ParseRecords(s[r.value.length..], blobs[r.value.objectId := r.value.content])
  }

  /** Python's payload[start:end] for a start inside the payload; a negative end counts from the back. */
  function Slice(payload: bytes, start: nat, end: int): bytes
    requires start <= |payload|
  {
    var last := if end < 0 then end + |payload| else end;
    var stop := if last > |payload| then |payload| else last;
    if stop <= start then [] else payload[start..stop]
  }

  /** The header line at the cursor. */
  method NextHeader(payload: bytes, cursor: nat) returns (r: Result<(bytes, int)>, after: nat)
    requires cursor < |payload|
    ensures var newline := IndexOfNewline(payload[cursor..]);
      if newline.None? then r == Err(TruncatedHeader)
      else r == ReadHeader(payload[cursor..][..newline.value]) && after == cursor + newline.value + 1
  {
    after := cursor;
    var newline := IndexOfNewline(payload[cursor..]);
    if newline.None? { return Err(TruncatedHeader), cursor; }
    var header := payload[cursor..cursor + newline.value];
    assert header == payload[cursor..][..newline.value];
    after := cursor + newline.value + 1;
    var parts := Fields(header);
    if |parts| == 2 && parts[1] == MISSING {
      return Err(if Ascii(parts[0]) then MissingObject(parts[0]) else NotAscii), after;
    }
    if |parts| != 3 { return Err(BadHeader), after; }
    if !Ascii(parts[0]) { return Err(NotAscii), after; }
    var size := ParseInt(parts[2]);
    if size.None? { return Err(NotANumber), after; }
    r := Ok((parts[0], size.value));
  }

  /** The record at the cursor, which moves past it. */
  method NextRecord(payload: bytes, cursor: nat) returns (r: Result<Piece>)
    requires cursor < |payload|
    ensures r == ReadRecord(payload[cursor..])
  {
    ghost var rest := payload[cursor..];
    var header, after := NextHeader(payload, cursor);
    if header.Err? { return Err(header.error); }
    var (objectId, size) := header.value;
    ghost var body := rest[after - cursor..];
    assert body == payload[after..];
    var content := Slice(payload, after, after + size);
    if |content| != size { return Err(TruncatedPayload(objectId)); }
    assert content == body[..size];
    if after + size >= |payload| || payload[after + size] != NEWLINE { return Err(MissingNewline(objectId)); }
    r := Ok(Piece(objectId, content, after + size + 1 - cursor));
  }

  method ParseCatFileBatch(payload: bytes) returns (r: Result<Blobs>)
    ensures r == ParseRecords(payload, map[])
  {
    hide ReadRecord;
    var blobs: Blobs := map[];
    var cursor := 0;
    assert payload[0..] == payload;
    while cursor < |payload|
      invariant 0 <= cursor <= |payload|
      invariant ParseRecords(payload, map[]) == ParseRecords(payload[cursor..], blobs)
      decreases |payload| - cursor
    {
      var piece := NextRecord(payload, cursor);
      if piece.Err? { return Err(piece.error); }
      assert payload[cursor..][piece.value.length..] == payload[cursor + piece.value.length..];
      cursor := cursor + piece.value.length;
      blobs := blobs[piece.value.objectId := piece.value.content];
    }
    assert payload[cursor..] == [];
    r := Ok(blobs);
  }

  // ---- what git writes -------------------------------------------------------------------------

  datatype Record = Record(objectId: bytes, kind: bytes, content: bytes) {
    /** Names without white space, the object's in ASCII. */
    predicate WellFormed() {
      Solid(objectId) && Ascii(objectId) && Solid(kind)
    }
  }

  function Decimal(n: nat): bytes {
    if n < 10 then [48 + n] else Decimal(n / 10) + [48 + n % 10]
  }

  function HeaderOf(r: Record): bytes {
    r.objectId + [SPACE] + r.kind + [SPACE] + Decimal(|r.content|)
  }

  function Encode(r: Record): bytes {
    HeaderOf(r) + [NEWLINE] + r.content + [NEWLINE]
  }

  function EncodeAll(rs: seq<Record>): bytes {
    if rs == [] then [] else Encode(rs[0]) + EncodeAll(rs[1..])
  }

  /** Each object's content; a later record of the same object wins. */
  function Contents(rs: seq<Record>, blobs: Blobs): Blobs {
    if rs == [] then blobs else Contents(rs[1..], blobs[rs[0].objectId := rs[0].content])
  }

  lemma {:induction false} DecimalDigits(n: nat)
    ensures Decimal(n) != []
    ensures forall i :: 0 <= i < |Decimal(n)| ==> IsDigit(Decimal(n)[i])
    ensures ParseDigits(Decimal(n)) == Some(n)
  {
    if n >= 10 {
      DecimalDigits(n / 10);
      var front := Decimal(n / 10);
      assert Decimal(n)[..|front|] == front;
      assert IsDigit(front[|front| - 1]);
    }
  }

  lemma {:induction false} TokenLengthIs(token: bytes, rest: bytes)
    requires forall i :: 0 <= i < |token| ==> !White(token[i])
    requires rest == [] || White(rest[0])
    ensures TokenLength(token + rest) == |token|
  {
    if token == [] {
      assert token + rest == rest;
    } else {
      assert (token + rest)[1..] == token[1..] + rest;
      TokenLengthIs(token[1..], rest);
    }
  }

  lemma FirstField(token: bytes, rest: bytes)
    requires Solid(token) && (rest == [] || White(rest[0]))
    ensures Fields(token + rest) == [token] + Fields(rest)
  {
    TokenLengthIs(token, rest);
    assert (token + rest)[..|token|] == token && (token + rest)[|token|..] == rest;
  }

  lemma SpacedField(token: bytes, rest: bytes)
    requires Solid(token)
    ensures Fields(token + [SPACE] + rest) == [token] + Fields(rest)
  {
    var tail := [SPACE] + rest;
    FirstField(token, tail);
    assert tail[1..] == rest;
    assert token + [SPACE] + rest == token + tail;
  }

  lemma NoFields()
    ensures Fields([]) == []
  {
  }

  lemma HeaderFields(r: Record)
    requires r.WellFormed()
    ensures Fields(HeaderOf(r)) == [r.objectId, r.kind, Decimal(|r.content|)]
  {
    hide Fields, ParseDigits, Decimal;
    var size := Decimal(|r.content|);
    DecimalDigits(|r.content|);
    assert Solid(size);
    assert Fields([]) == [] by { NoFields(); }
    FirstField(size, []);
    assert size + [] == size;
    SpacedField(r.kind, size);
    SpacedField(r.objectId, r.kind + [SPACE] + size);
    assert HeaderOf(r) == r.objectId + [SPACE] + (r.kind + [SPACE] + size);
  }

  lemma HeaderRead(r: Record)
    requires r.WellFormed()
    ensures ReadHeader(HeaderOf(r)) == Ok((r.objectId, |r.content|))
    ensures forall i :: 0 <= i < |HeaderOf(r)| ==> HeaderOf(r)[i] != NEWLINE
  {
    HeaderFields(r);
    DecimalDigits(|r.content|);
    var size := Decimal(|r.content|);
    assert IsDigit(size[0]);
    forall i | 0 <= i < |HeaderOf(r)| ensures HeaderOf(r)[i] != NEWLINE {
      assert White(NEWLINE);
    }
  }

  /** The first newline comes right after the header, once the header is there. */
  lemma NewlineAfterHeader(r: Record, n: nat, rest: bytes)
    requires r.WellFormed() && n <= |Encode(r) + rest|
    ensures var s := (Encode(r) + rest)[..n];
      IndexOfNewline(s) == if n <= |HeaderOf(r)| then None else Some(|HeaderOf(r)|)
  {
    HeaderRead(r);
    var whole := Encode(r) + rest;
    var s := whole[..n];
    var h := |HeaderOf(r)|;
    forall i | 0 <= i < h && i < n ensures s[i] != NEWLINE {
      assert s[i] == HeaderOf(r)[i];
    }
    if n > h { assert s[h] == whole[h] == NEWLINE; }
  }

  /** A whole record is read back, whatever its content and whatever follows it. */
  lemma RecordRead(r: Record, rest: bytes)
    requires r.WellFormed()
    ensures ReadRecord(Encode(r) + rest) == Ok(Piece(r.objectId, r.content, |Encode(r)|))
  {
    var s := Encode(r) + rest;
    var h := |HeaderOf(r)|;
    assert s[..|s|] == s;
    NewlineAfterHeader(r, |s|, rest);
    HeaderRead(r);
    assert s[..h] == HeaderOf(r);
    var body := s[h + 1..];
    assert body == r.content + [NEWLINE] + rest;
    assert body[..|r.content|] == r.content;
  }

  /** A line of three fields, the last one the size, then that many bytes and a newline. */
  ghost predicate Framed(s: bytes, h: nat, p: Piece) {
    && p.length == h + |p.content| + 2 <= |s|
    && (forall i :: 0 <= i < h ==> s[i] != 10)
    && s[h] == 10 && s[p.length - 1] == 10
    && s[h + 1..p.length - 1] == p.content
    && |Fields(s[..h])| == 3
    && Fields(s[..h])[0] == p.objectId && Ascii(p.objectId)
    && ParseInt(Fields(s[..h])[2]) == Some(|p.content|)
  }

  /** A record is accepted exactly when it is framed like that. */
  lemma RecordExactly(s: bytes, p: Piece)
    ensures ReadRecord(s) == Ok(p) <==> exists h :: Framed(s, h, p)
  {
    if ReadRecord(s) == Ok(p) {
      assert Framed(s, IndexOfNewline(s).value, p);
    }
    if h :| Framed(s, h, p) {
      assert IndexOfNewline(s) == Some(h);
      var body := s[h + 1..];
      assert body[..|p.content|] == s[h + 1..p.length - 1];
      assert body[|p.content|] == s[p.length - 1];
    }
  }

  /** What git writes for an object it does not have. */
  function MissingLine(id: bytes): bytes {
    id + [SPACE] + MISSING
  }

  lemma MissingHeader(id: bytes)
    requires Solid(id) && Ascii(id)
    ensures ReadHeader(MissingLine(id)) == Err(MissingObject(id))
    ensures forall i :: 0 <= i < |MissingLine(id)| ==> MissingLine(id)[i] != NEWLINE
  {
    assert Solid(MISSING) && MISSING + [] == MISSING;
    FirstField(MISSING, []);
    SpacedField(id, MISSING);
    assert Fields(MissingLine(id)) == [id, MISSING];
    assert White(NEWLINE);
  }

  lemma MissingRecord(id: bytes, rest: bytes)
    requires Solid(id) && Ascii(id)
    ensures ReadRecord(MissingLine(id) + [NEWLINE] + rest) == Err(MissingObject(id))
  {
    hide ReadHeader;
    var line := MissingLine(id);
    var s := line + [NEWLINE] + rest;
    MissingHeader(id);
    assert s[..|line|] == line && s[|line|] == NEWLINE;
    forall i | 0 <= i < |line| ensures s[i] != NEWLINE { assert s[i] == line[i]; }
    assert IndexOfNewline(s) == Some(|line|);
  }

  /** After whole records, the line that says an object is missing ends the parse and names the object. */
  lemma {:induction false} MissingReported(rs: seq<Record>, id: bytes, rest: bytes, blobs: Blobs)
    requires forall i :: 0 <= i < |rs| ==> rs[i].WellFormed()
    requires Solid(id) && Ascii(id)
    ensures ParseRecords(EncodeAll(rs) + (MissingLine(id) + [NEWLINE] + rest), blobs) == Err(MissingObject(id))
  {
    hide ReadRecord, MissingLine, Encode;
    var tail := MissingLine(id) + [NEWLINE] + rest;
    if rs == [] {
      assert EncodeAll(rs) + tail == tail;
      MissingRecord(id, rest);
    } else {
      var more := EncodeAll(rs[1..]);
      RecordRead(rs[0], more + tail);
      MissingReported(rs[1..], id, rest, blobs[rs[0].objectId := rs[0].content]);
      assert EncodeAll(rs) + tail == Encode(rs[0]) + (more + tail);
      assert (Encode(rs[0]) + (more + tail))[|Encode(rs[0])|..] == more + tail;
    }
  }

  /** A record cut anywhere inside is refused. */
  lemma RecordCut(r: Record, n: nat)
    requires r.WellFormed() && 0 < n < |Encode(r)|
    ensures ReadRecord(Encode(r)[..n]).Err?
  {
    var s := Encode(r)[..n];
    var h := |HeaderOf(r)|;
    assert Encode(r) + [] == Encode(r);
    NewlineAfterHeader(r, n, []);
    HeaderRead(r);
    if n > h { assert s[..h] == HeaderOf(r); }
  }

  /** What was written is read: the content of every object, byte for byte. */
  lemma {:induction false} RoundTrip(rs: seq<Record>, blobs: Blobs)
    requires forall i :: 0 <= i < |rs| ==> rs[i].WellFormed()
    ensures ParseRecords(EncodeAll(rs), blobs) == Ok(Contents(rs, blobs))
  {
    if rs != [] {
      var rest := EncodeAll(rs[1..]);
      RecordRead(rs[0], rest);
      RoundTrip(rs[1..], blobs[rs[0].objectId := rs[0].content]);
      assert (Encode(rs[0]) + rest)[|Encode(rs[0])|..] == rest;
    }
  }

  ghost predicate Distinct(rs: seq<Record>) {
    forall i, j :: 0 <= i < j < |rs| ==> rs[i].objectId != rs[j].objectId
  }

  lemma {:induction false} ContentsElsewhere(rs: seq<Record>, blobs: Blobs, x: bytes)
    requires forall i :: 0 <= i < |rs| ==> rs[i].objectId != x
    ensures x in Contents(rs, blobs) <==> x in blobs
    ensures x in blobs ==> Contents(rs, blobs)[x] == blobs[x]
  {
    if rs != [] { ContentsElsewhere(rs[1..], blobs[rs[0].objectId := rs[0].content], x); }
  }

  /** With one record per object the parsed map is exactly object to content. */
  lemma {:induction false} ContentsOfDistinct(rs: seq<Record>, blobs: Blobs, i: nat)
    requires Distinct(rs) && i < |rs|
    ensures rs[i].objectId in Contents(rs, blobs) && Contents(rs, blobs)[rs[i].objectId] == rs[i].content
  {
    var more := blobs[rs[0].objectId := rs[0].content];
    if i == 0 {
      ContentsElsewhere(rs[1..], more, rs[0].objectId);
    } else {
      ContentsOfDistinct(rs[1..], more, i - 1);
    }
  }

  /** Parsing one record per object gives back every content, and no other object. */
  lemma EveryObjectReturned(rs: seq<Record>)
    requires Distinct(rs) && forall i :: 0 <= i < |rs| ==> rs[i].WellFormed()
    ensures var r := ParseRecords(EncodeAll(rs), map[]);
      && r.Ok?
      && (forall i :: 0 <= i < |rs| ==> rs[i].objectId in r.value && r.value[rs[i].objectId] == rs[i].content)
      && (forall x :: x in r.value ==> exists i :: 0 <= i < |rs| && rs[i].objectId == x)
  {
    RoundTrip(rs, map[]);
    forall i | 0 <= i < |rs|
      ensures rs[i].objectId in Contents(rs, map[]) && Contents(rs, map[])[rs[i].objectId] == rs[i].content
    {
      ContentsOfDistinct(rs, map[], i);
    }
    forall x | x in Contents(rs, map[])
      ensures exists i :: 0 <= i < |rs| && rs[i].objectId == x
    {
      if forall i :: 0 <= i < |rs| ==> rs[i].objectId != x { ContentsElsewhere(rs, map[], x); }
    }
  }

  /** The answer breaks off after exactly k records. */
  predicate AtBoundary(rs: seq<Record>, n: nat, k: int) {
    0 <= k <= |rs| && n == |EncodeAll(rs[..k])|
  }

  lemma BoundaryShift(rs: seq<Record>, n: nat, k: nat)
    requires rs != [] && k > 0
    ensures AtBoundary(rs, |Encode(rs[0])| + n, k) <==> AtBoundary(rs[1..], n, k - 1)
  {
    if k <= |rs| {
      assert rs[..k][1..] == rs[1..][..k - 1];
    }
  }

  lemma FirstCounts(rs: seq<Record>, k: int)
    requires 0 < k <= |rs|
    ensures |EncodeAll(rs[..k])| >= |Encode(rs[0])| > 0
  {
    assert rs[..k][0] == rs[0];
  }

  lemma BoundaryPastFirst(rs: seq<Record>, n: nat, k: int)
    requires AtBoundary(rs, n, k)
    ensures k == 0 <==> n == 0
    ensures n > 0 ==> n >= |Encode(rs[0])|
  {
    assert rs[..0] == [];
    if k > 0 { FirstCounts(rs, k); }
  }

  /** The prefix parses to the first k records for some k, which are where it ends. */
  ghost predicate ParsesAsCut(rs: seq<Record>, n: nat, blobs: Blobs)
    requires n <= |EncodeAll(rs)|
  {
    var r := ParseRecords(EncodeAll(rs)[..n], blobs);
    && (r.Ok? ==> exists k :: AtBoundary(rs, n, k))
    && (forall k {:trigger AtBoundary(rs, n, k)} :: AtBoundary(rs, n, k) ==> r == Ok(Contents(rs[..k], blobs)))
  }

  /** A cut behind the first record is a cut in the rest. */
  lemma CutParse(rs: seq<Record>, n: nat, blobs: Blobs)
    requires rs != [] && rs[0].WellFormed() && |Encode(rs[0])| <= n <= |EncodeAll(rs)|
    ensures ParseRecords(EncodeAll(rs)[..n], blobs) ==
            ParseRecords(EncodeAll(rs[1..])[..n - |Encode(rs[0])|], blobs[rs[0].objectId := rs[0].content])
  {
    hide ReadRecord, Encode;
    var first := Encode(rs[0]);
    var rest := EncodeAll(rs[1..])[..n - |first|];
    assert EncodeAll(rs)[..n] == first + rest;
    RecordRead(rs[0], rest);
    assert (first + rest)[|first|..] == rest;
  }

  /** The boundaries behind the first record are those of the rest, one record further. */
  lemma BoundaryLater(rs: seq<Record>, n: nat, k: int)
    requires rs != [] && |Encode(rs[0])| <= n
    ensures AtBoundary(rs, n, k) <==> k > 0 && AtBoundary(rs[1..], n - |Encode(rs[0])|, k - 1)
    ensures AtBoundary(rs, n, k) ==> rs[..k][1..] == rs[1..][..k - 1] && rs[..k] != [] && rs[..k][0] == rs[0]
  {
    if AtBoundary(rs, n, k) { BoundaryPastFirst(rs, n, k); }
    if k > 0 { BoundaryShift(rs, n - |Encode(rs[0])|, k); }
  }

  lemma CutLater(rs: seq<Record>, n: nat, blobs: Blobs)
    requires rs != [] && rs[0].WellFormed() && |Encode(rs[0])| <= n <= |EncodeAll(rs)|
    requires ParsesAsCut(rs[1..], n - |Encode(rs[0])|, blobs[rs[0].objectId := rs[0].content])
    ensures ParsesAsCut(rs, n, blobs)
  {
    hide ParseRecords, Encode;
    var m := n - |Encode(rs[0])|;
    var more := blobs[rs[0].objectId := rs[0].content];
    CutParse(rs, n, blobs);
    if k :| AtBoundary(rs[1..], m, k) {
      BoundaryLater(rs, n, k + 1);
      assert AtBoundary(rs, n, k + 1);
    }
    forall k {:trigger AtBoundary(rs, n, k)} | AtBoundary(rs, n, k)
      ensures 0 <= k <= |rs| && ParseRecords(EncodeAll(rs)[..n], blobs) == Ok(Contents(rs[..k], blobs))
    {
      BoundaryLater(rs, n, k);
      assert AtBoundary(rs[1..], m, k - 1);
    }
  }

  lemma CutInFirst(rs: seq<Record>, n: nat, blobs: Blobs)
    requires rs != [] && rs[0].WellFormed() && 0 < n < |Encode(rs[0])| && n <= |EncodeAll(rs)|
    ensures ParsesAsCut(rs, n, blobs)
  {
    RecordCut(rs[0], n);
    assert EncodeAll(rs)[..n] == Encode(rs[0])[..n];
    forall k {:trigger AtBoundary(rs, n, k)} | AtBoundary(rs, n, k)
      ensures false
    {
      BoundaryPastFirst(rs, n, k);
    }
  }

  lemma NothingParses(rs: seq<Record>, blobs: Blobs)
    requires forall i :: 0 <= i < |rs| ==> rs[i].WellFormed()
    ensures ParsesAsCut(rs, 0, blobs)
  {
    assert rs[..0] == [] && AtBoundary(rs, 0, 0);
    forall k {:trigger AtBoundary(rs, 0, k)} | AtBoundary(rs, 0, k) ensures k == 0 {
      BoundaryPastFirst(rs, 0, k);
    }
  }

  lemma {:induction false} PrefixParses(rs: seq<Record>, n: nat, blobs: Blobs)
    requires forall i :: 0 <= i < |rs| ==> rs[i].WellFormed()
    requires n <= |EncodeAll(rs)|
    ensures ParsesAsCut(rs, n, blobs)
  {
    hide ParsesAsCut;
    if n == 0 {
      NothingParses(rs, blobs);
    } else if n < |Encode(rs[0])| {
      CutInFirst(rs, n, blobs);
    } else {
      PrefixParses(rs[1..], n - |Encode(rs[0])|, blobs[rs[0].objectId := rs[0].content]);
      CutLater(rs, n, blobs);
    }
  }

  /** An answer cut short is accepted exactly when it was cut between records, and then it gives those records. */
  lemma CutAnswerExact(rs: seq<Record>, n: nat)
    requires forall i :: 0 <= i < |rs| ==> rs[i].WellFormed()
    requires n <= |EncodeAll(rs)|
    ensures ParseRecords(EncodeAll(rs)[..n], map[]).Ok? <==> exists k :: AtBoundary(rs, n, k)
    ensures forall k :: AtBoundary(rs, n, k) ==> ParseRecords(EncodeAll(rs)[..n], map[]) == Ok(Contents(rs[..k], map[]))
  {
    PrefixParses(rs, n, map[]);
  }

  // ---- asking for objects -------------------------------------------------------------------------

  /** The ids without repetition, in order of first appearance. */
  function UniqueIds(ids: seq<bytes>): (r: seq<bytes>)
    ensures forall x :: x in r <==> x in ids
    ensures forall i, j :: 0 <= i < j < |r| ==> r[i] != r[j]
    ensures r == [] <==> ids == []
  {
    if ids == [] then []
    else
      var before := UniqueIds(ids[..|ids| - 1]);
      assert ids == ids[..|ids| - 1] + [ids[|ids| - 1]];
      if ids[|ids| - 1] in before then before else before + [ids[|ids| - 1]]
  }

  /** Every requested object is returned, or the call fails. */
  method CatFileBatch(ids: seq<bytes>, answer: bytes) returns (r: Result<Blobs>)
    ensures ids == [] ==> r == Ok(map[])
    ensures ids != [] && r.Ok? ==> ParseRecords(answer, map[]) == r
    ensures r.Ok? ==> forall x :: x in ids ==> x in r.value
    ensures ids != [] && ParseRecords(answer, map[]).Err? ==> r == ParseRecords(answer, map[])
    ensures ids != [] && r.Err? && ParseRecords(answer, map[]).Ok? ==>
              exists x :: x in ids && x !in ParseRecords(answer, map[]).value && r == Err(OmittedObject(x))
    ensures ids != [] && ParseRecords(answer, map[]).Ok? ==>
              (forall x :: x in ids ==> x in ParseRecords(answer, map[]).value) ==> r == ParseRecords(answer, map[])
  {
    var unique := UniqueIds(ids);
    if unique == [] { return Ok(map[]); }
    r := ParseCatFileBatch(answer);
    if r.Err? { return; }
    for i := 0 to |unique|
      invariant forall k :: 0 <= k < i ==> unique[k] in r.value
    {
      if unique[i] !in r.value { return Err(OmittedObject(unique[i])); }
    }
  }
}
