/** The text form in which pipes are handed to a new process as arguments. */
module PipeDescriptor {
  import opened Wrappers

  datatype MessageType =
    | COMM_ERROR | WAY_REQ | WAY_RES | MOV_CMD | RANGE_POSE_DATA | MAP_UPDATE | COMM_ACK | MSG_BUFFER

  datatype TypedPipe = TypedPipe(kind: MessageType, fdIn: int, fdOut: int)

  /** The fields of a vote_pipe that its descriptor sets. */
  datatype TimedPipe = TimedPipe(repInfo: string, fdIn: int, fdOut: int, timed: int)

  /** MESSAGE_T */
  function Name(kind: MessageType): (name: string)
    ensures name != "" && ':' !in name
  {
    match kind
    case COMM_ERROR => "COMM_ERROR"
    case WAY_REQ => "WAY_REQ"
    case WAY_RES => "WAY_RES"
    case MOV_CMD => "MOV_CMD"
    case RANGE_POSE_DATA => "RANGE_POSE_DATA"
    case MAP_UPDATE => "MAP_UPDATE"
    case COMM_ACK => "COMM_ACK"
    case MSG_BUFFER => "MSG_BUFFER"
  }

  /** commToEnum inverts MESSAGE_T; every text outside the table becomes COMM_ERROR. */
  function CommToEnum(name: string): (kind: MessageType)
    ensures forall k: MessageType :: name == Name(k) ==> kind == k
    ensures name == Name(kind) || kind == COMM_ERROR
  {
    if name == "WAY_REQ" then WAY_REQ
    else if name == "WAY_RES" then WAY_RES
    else if name == "MOV_CMD" then MOV_CMD
    else if name == "RANGE_POSE_DATA" then RANGE_POSE_DATA
    else if name == "MAP_UPDATE" then MAP_UPDATE
    else if name == "COMM_ACK" then COMM_ACK
    else if name == "MSG_BUFFER" then MSG_BUFFER
    else COMM_ERROR
  }

  // ----- Printing: %d and %s

  function Digit(d: nat): (c: char)
    requires d < 10
    ensures IsDigit(c) && DigitValue(c) == d
  {
    '0' + d as char
  }

  function Digits(n: nat): (text: string)
    ensures text != ""
  {
    if n < 10 then [Digit(n)] else Digits(n / 10) + [Digit(n % 10)]
  }

  function Decimal(n: int): (text: string)
  {
    if n < 0 then "-" + Digits(-n) else Digits(n)
  }

  /** A run of fields, each after a colon. */
  function FieldsBy(write: int -> string, numbers: seq<int>): (text: string)
    ensures text == "" || text[0] == ':'
  {
    if numbers == [] then "" else ":" + (write(numbers[0]) + FieldsBy(write, numbers[1..]))
  }

  /** A run of ":%d" fields. */
  function Fields(numbers: seq<int>): (text: string)
    ensures text == "" || text[0] == ':'
  {
    FieldsBy(Decimal, numbers)
  }

  /** serializePipe: an input pipe loses its output descriptor. */
  function Serialize(pipe: TypedPipe): (serial: string)
  {
    if pipe.fdIn == 0 then Name(pipe.kind) + Fields([0, pipe.fdOut])
    else Name(pipe.kind) + Fields([pipe.fdIn, 0])
  }

  /** The argument that the plumber prints for a voter. */
  function SerializeTimed(pipe: TypedPipe, timed: int): (serial: string)
  {
    Serialize(pipe) + Fields([timed])
  }

  // ----- Scanning: "%m[^:]" followed by ":%d" fields

  predicate IsDigit(c: char) { '0' <= c <= '9' }

  function DigitValue(c: char): (v: int) { c as int - '0' as int }

  predicate IsSpace(c: char) { c == ' ' || '\t' <= c <= '\r' }

  predicate NotColon(c: char) { c != ':' }

  /** The length of the longest prefix of characters that satisfy `p`. */
  function Span(text: string, p: char -> bool): (n: nat)
    ensures n <= |text|
  {
    if text != "" && p(text[0]) then 1 + Span(text[1..], p) else 0
  }

  function Value(digits: string): (n: int)
  {
    if digits == "" then 0
    else 10 * Value(digits[..|digits| - 1]) + DigitValue(digits[|digits| - 1])
  }

  /** A number and the text after it. */
  datatype Scanned = Scanned(number: int, rest: string)

  /** At least one digit. */
  function ScanDigits(text: string): (r: Option<Scanned>)
    ensures r.Some? ==> |r.value.rest| < |text|
  {
    var n := Span(text, IsDigit);
    if n == 0 then None else Some(Scanned(Value(text[..n]), text[n..]))
  }

  /** "%d": white space, an optional sign, then the digits. */
  function ScanInt(text: string): (r: Option<Scanned>)
    ensures r.Some? ==> |r.value.rest| < |text|
  {
    var t := text[Span(text, IsSpace)..];
    if t != "" && t[0] == '-' then
      match ScanDigits(t[1..])
      case None => None
      case Some(s) => Some(s.(number := -s.number))
    else if t != "" && t[0] == '+' then ScanDigits(t[1..])
    else ScanDigits(t)
  }

  /** The numbers that up to `most` directives, a colon and a number each, assign before one of them
      fails to match. */
  function ScanFieldsBy(scan: string -> Option<Scanned>, text: string, most: nat): (numbers: seq<int>)
    ensures |numbers| <= most
    decreases most
  {
    if most == 0 || text == "" || text[0] != ':' then []
    else match scan(text[1..])
      case None => []
      case Some(s) => [s.number] + ScanFieldsBy(scan, s.rest, most - 1)
  }

  /** The same for ":%d". */
  function ScanFields(text: string, most: nat): (numbers: seq<int>)
    ensures |numbers| <= most
  {
    ScanFieldsBy(ScanInt, text, most)
  }

  /** The text that "%m[^:]" assigns: it fails on an empty match. */
  function ScanWord(serial: string): (word: Option<string>)
  {
    var n := Span(serial, NotColon);
    if n == 0 then None else Some(serial[..n])
  }

  /** What follows the word. */
  function Tail(serial: string): (text: string)
  {
    serial[Span(serial, NotColon)..]
  }

  /**
   * deserializePipe: numbers that are missing are zero.
   * Without a word the C code reads a pointer that was never assigned: None.
   */
  function Deserialize(serial: string): (pipe: Option<TypedPipe>)
  {
    match ScanWord(serial)
    case None => None
    case Some(word) =>
      var numbers := ScanFields(Tail(serial), 2);
      Some(TypedPipe(CommToEnum(word),
                     if |numbers| > 0 then numbers[0] else 0,
                     if |numbers| > 1 then numbers[1] else 0))
  }

  /** parsePipe: every variable needs its number, for none of them is initialised. */
  function ParsePipe(serial: string): (pipe: Option<TimedPipe>)
  {
    var numbers := ScanFields(Tail(serial), 3);
    match ScanWord(serial)
    case None => None
    case Some(word) =>
      if |numbers| < 3 then None else Some(TimedPipe(word, numbers[0], numbers[1], numbers[2]))
  }

  /** convertVoteToTyped for one pipe. */
  function VoteToTyped(pipe: TimedPipe): (typed: TypedPipe)
  {
    TypedPipe(CommToEnum(pipe.repInfo), pipe.fdIn, pipe.fdOut)
  }

  // ----- Scanning inverts printing

  predicate All(text: string, p: char -> bool) { forall c <- text :: p(c) }

  lemma {:induction false} SpanAppend(a: string, b: string, p: char -> bool)
    requires All(a, p)
    requires b == "" || !p(b[0])
    ensures Span(a + b, p) == |a|
  {
    if a == "" {
      assert a + b == b;
    } else {
      assert (a + b)[1..] == a[1..] + b;
      SpanAppend(a[1..], b, p);
    }
  }

  lemma {:induction false} DigitsAreDigits(n: nat)
    ensures All(Digits(n), IsDigit)
  {
    if n >= 10 {
      DigitsAreDigits(n / 10);
    }
  }

  lemma {:induction false} ValueOfDigits(n: nat)
    ensures Value(Digits(n)) == n
  {
    if n < 10 {
      assert Digits(n)[..0] == "";
    } else {
      var text := Digits(n);
      assert text[..|text| - 1] == Digits(n / 10);
      ValueOfDigits(n / 10);
    }
  }

  lemma ScanPrintedDigits(n: nat, rest: string)
    requires rest == "" || !IsDigit(rest[0])
    ensures ScanDigits(Digits(n) + rest) == Some(Scanned(n, rest))
  {
    var digits := Digits(n);
    var text := digits + rest;
    DigitsAreDigits(n);
    SpanAppend(digits, rest, IsDigit);
    ValueOfDigits(n);
    assert text[..|digits|] == digits && text[|digits|..] == rest;
  }

  lemma NoSpace(text: string)
    requires text != "" && !IsSpace(text[0])
    ensures text[Span(text, IsSpace)..] == text
  {
  }

  lemma ScanUnsigned(digits: string)
    requires digits != "" && IsDigit(digits[0])
    ensures ScanInt(digits) == ScanDigits(digits)
  {
    NoSpace(digits);
  }

  lemma ScanNegative(digits: string)
    requires ScanDigits(digits).Some?
    ensures var s := ScanDigits(digits).value; ScanInt("-" + digits) == Some(s.(number := -s.number))
  {
    var text := "-" + digits;
    NoSpace(text);
    assert text[1..] == digits;
  }

  lemma ScanNatural(n: nat, rest: string, text: string)
    requires (rest == "" || !IsDigit(rest[0])) && text == Digits(n) + rest
    ensures ScanInt(text) == Some(Scanned(n, rest))
  {
    ScanPrintedDigits(n, rest);
    DigitsAreDigits(n);
    assert text[0] in Digits(n);
    ScanUnsigned(text);
  }

  lemma ScanBelowZero(n: nat, rest: string, text: string)
    requires (rest == "" || !IsDigit(rest[0])) && text == Digits(n) + rest
    ensures ScanInt("-" + text) == Some(Scanned(0 - n, rest))
  {
    ScanPrintedDigits(n, rest);
    ScanNegative(text);
  }

  /** "%d" reads back what "%d" printed, up to a following text that does not start with a digit. */
  lemma ScanDecimal(n: int, rest: string)
    requires rest == "" || !IsDigit(rest[0])
    ensures ScanInt(Decimal(n) + rest) == Some(Scanned(n, rest))
  {
    if n < 0 {
      var text := Digits(-n) + rest;
      ScanBelowZero(-n, rest, text);
      assert Decimal(n) + rest == "-" + text;
    } else {
      ScanNatural(n, rest, Digits(n) + rest);
    }
  }

  /** `scan` reads back what `write` printed, before another field or at the end. */
  ghost predicate Inverts(scan: string -> Option<Scanned>, write: int -> string) {
    forall n: int, rest: string :: rest == "" || rest[0] == ':' ==> scan(write(n) + rest) == Some(Scanned(n, rest))
  }

  lemma ScanOne(scan: string -> Option<Scanned>, text: string, n: int, rest: string, most: nat)
    requires most != 0 && scan(text) == Some(Scanned(n, rest))
    ensures ScanFieldsBy(scan, ":" + text, most) == [n] + ScanFieldsBy(scan, rest, most - 1)
  {
    assert (":" + text)[1..] == text;
  }

  function Take(numbers: seq<int>, most: nat): (r: seq<int>)
  {
    if most <= |numbers| then numbers[..most] else numbers
  }

  lemma TakeFirst(numbers: seq<int>, most: nat)
    requires numbers != [] && most != 0
    ensures Take(numbers, most) == [numbers[0]] + Take(numbers[1..], most - 1)
  {
  }

  lemma ScanStep(scan: string -> Option<Scanned>, write: int -> string, numbers: seq<int>, tail: seq<int>, most: nat)
    requires Inverts(scan, write) && numbers != [] && most != 0 && tail == numbers[1..]
    requires ScanFieldsBy(scan, FieldsBy(write, tail), most - 1) == Take(tail, most - 1)
    ensures ScanFieldsBy(scan, FieldsBy(write, numbers), most) == Take(numbers, most)
  {
    var n, rest := numbers[0], FieldsBy(write, tail);
    assert FieldsBy(write, numbers) == ":" + (write(n) + rest);
    ScanOne(scan, write(n) + rest, n, rest, most);
    TakeFirst(numbers, most);
  }

  lemma {:induction false} ScanPrintedBy(scan: string -> Option<Scanned>, write: int -> string, numbers: seq<int>, most: nat)
    requires Inverts(scan, write)
    ensures ScanFieldsBy(scan, FieldsBy(write, numbers), most) == Take(numbers, most)
    decreases most
  {
    if numbers != [] && most != 0 {
      var tail := numbers[1..];
      ScanPrintedBy(scan, write, tail, most - 1);
      ScanStep(scan, write, numbers, tail, most);
    }
  }

  /** Any run of printed fields is read back; directives in excess match nothing. */
  lemma ScanPrinted(numbers: seq<int>, most: nat)
    ensures ScanFields(Fields(numbers), most) == if most <= |numbers| then numbers[..most] else numbers
  {
    forall n: int, rest: string | rest == "" || rest[0] == ':' ensures ScanInt(Decimal(n) + rest) == Some(Scanned(n, rest)) {
      ScanDecimal(n, rest);
    }
    ScanPrintedBy(ScanInt, Decimal, numbers, most);
  }

  lemma {:induction false} FieldsAppend(a: seq<int>, b: seq<int>)
    ensures Fields(a + b) == Fields(a) + Fields(b)
  {
    if a == [] {
      assert a + b == b;
    } else {
      assert (a + b)[1..] == a[1..] + b;
      FieldsAppend(a[1..], b);
    }
  }

  lemma ScanName(kind: MessageType, numbers: seq<int>)
    ensures ScanWord(Name(kind) + Fields(numbers)) == Some(Name(kind))
    ensures Tail(Name(kind) + Fields(numbers)) == Fields(numbers)
  {
    var serial := Name(kind) + Fields(numbers);
    SpanAppend(Name(kind), Fields(numbers), NotColon);
    var n := |Name(kind)|;
    assert serial[..n] == Name(kind) && serial[n..] == Fields(numbers);
  }

  /** The descriptor without the half that serializePipe drops. */
  function Directed(pipe: TypedPipe): (r: TypedPipe)
  {
    pipe.(fdOut := if pipe.fdIn == 0 then pipe.fdOut else 0)
  }

  lemma DeserializeText(kind: MessageType, numbers: seq<int>)
    requires |numbers| >= 2
    ensures Deserialize(Name(kind) + Fields(numbers)) == Some(TypedPipe(kind, numbers[0], numbers[1]))
  {
    ScanName(kind, numbers);
    ScanPrinted(numbers, 2);
  }

  lemma ParseText(kind: MessageType, numbers: seq<int>)
    requires 2 <= |numbers| <= 3
    ensures ParsePipe(Name(kind) + Fields(numbers)) ==
      if |numbers| == 3 then Some(TimedPipe(Name(kind), numbers[0], numbers[1], numbers[2])) else None
  {
    ScanName(kind, numbers);
    ScanPrinted(numbers, 3);
  }

  lemma TimedText(pipe: TypedPipe, timed: int)
    ensures SerializeTimed(pipe, timed) == Name(pipe.kind) + Fields([Directed(pipe).fdIn, Directed(pipe).fdOut, timed])
  {
    var d := Directed(pipe);
    FieldsAppend([d.fdIn, d.fdOut], [timed]);
    assert [d.fdIn, d.fdOut, timed] == [d.fdIn, d.fdOut] + [timed];
  }

  /** A controller reads its own descriptor back exactly when the pipe has at most one end. */
  lemma DescriptorRoundTrip(pipe: TypedPipe)
    ensures Deserialize(Serialize(pipe)) == Some(Directed(pipe))
    ensures Deserialize(Serialize(pipe)) == Some(pipe) <==> pipe.fdIn == 0 || pipe.fdOut == 0
  {
    DeserializeText(pipe.kind, [Directed(pipe).fdIn, Directed(pipe).fdOut]);
  }

  /** The voter reads the plumber's argument back, flag included, and its typed form is the plumber's pipe. */
  lemma TimedRoundTrip(pipe: TypedPipe, timed: int)
    ensures ParsePipe(SerializeTimed(pipe, timed))
         == Some(TimedPipe(Name(pipe.kind), Directed(pipe).fdIn, Directed(pipe).fdOut, timed))
    ensures VoteToTyped(ParsePipe(SerializeTimed(pipe, timed)).value) == pipe <==> pipe.fdIn == 0 || pipe.fdOut == 0
    ensures Deserialize(SerializeTimed(pipe, timed)) == Some(Directed(pipe))
  {
    var numbers := [Directed(pipe).fdIn, Directed(pipe).fdOut, timed];
    TimedText(pipe, timed);
    ParseText(pipe.kind, numbers);
    DeserializeText(pipe.kind, numbers);
  }

  /** A plain descriptor leaves the voter's flag unassigned. */
  lemma PlainIsNotTimed(pipe: TypedPipe)
    ensures ParsePipe(Serialize(pipe)) == None
  {
    ParseText(pipe.kind, [Directed(pipe).fdIn, Directed(pipe).fdOut]);
  }

  lemma TwoFields(a: int, b: int)
    ensures Fields([a, b]) == ":" + Decimal(a) + ":" + Decimal(b)
  {
    assert [a, b][1..] == [b] && [b][1..] == [];
    assert FieldsBy(Decimal, [b]) == ":" + Decimal(b);
  }

  /** What such texts look like. */
  lemma DescriptorText()
    ensures Serialize(TypedPipe(MAP_UPDATE, 0, 12)) == "MAP_UPDATE:0:12"
    ensures Serialize(TypedPipe(MOV_CMD, 7, 0)) == "MOV_CMD:7:0"
    ensures SerializeTimed(TypedPipe(MOV_CMD, 7, 0), 1) == "MOV_CMD:7:0:1"
  {
    assert Decimal(0) == "0" && Decimal(7) == "7" && Decimal(12) == "12" && Decimal(1) == "1";
    TwoFields(0, 12);
    TwoFields(7, 0);
    assert Fields([1]) == ":1" by {
      assert [1][1..] == [];
    }
  }
}
