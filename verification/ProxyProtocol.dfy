/** The PROXY protocol preamble, versions 1 and 2 (sections 2.1 and 2.2 of the HAProxy PROXY
    protocol specification). Bytes are characters below 256. */
module ProxyProtocol {
  import opened Strings

  const MaxLineLength := 107

  const Signature: string := "\r\n\r\n\0\r\nQUIT\n"

  // --------------------------------------------------------------- stream --

  /** A buffered reader over what a connection will deliver before it closes. */
  class Reader {
    var stream: string

    constructor (stream: string)
      ensures this.stream == stream
    {
      this.stream := stream;
    }

    method Peek(n: nat) returns (prefix: Option<string>)
      ensures prefix == if |stream| >= n then Some(stream[..n]) else None
    {
      prefix := if |stream| >= n then Some(stream[..n]) else None;
    }

    /** Consumes a line with its line feed, or everything. */
    method ReadLine() returns (line: Option<string>)
      modifies this
      ensures (line, stream) == CutLine(old(stream))
    {
      var i := 0;
      while i < |stream| && stream[i] != '\n'
        invariant 0 <= i <= |stream| && stream == old(stream)
        invariant '\n' !in stream[..i]
      {
        i := i + 1;
      }
      CutLineAt(stream, i);
      if i == |stream| {
        stream := "";
        return None;
      }
      line := Some(stream[..i + 1]);
      stream := stream[i + 1..];
    }

    method ReadFull(n: nat) returns (block: Option<string>)
      modifies this
      ensures (block, stream) == CutBlock(old(stream), n)
    {
      if |stream| < n {
        stream := "";
        return None;
      }
      block := Some(stream[..n]);
      stream := stream[n..];
    }
  }

  function CutLine(s: string): (Option<string>, string) {
    if s == "" then (None, "")
    else if s[0] == '\n' then (Some(s[..1]), s[1..])
    else
      var (line, rest) := CutLine(s[1..]);
      (if line.Some? then Some([s[0]] + line.value) else None, rest)
  }

  lemma {:induction false} CutLineAt(s: string, i: nat)
    requires i <= |s| && '\n' !in s[..i] && (i == |s| || s[i] == '\n')
    ensures CutLine(s) == if i == |s| then (None, "") else (Some(s[..i + 1]), s[i + 1..])
  {
    if i > 0 {
      assert s[1..][..i - 1] == s[..i][1..];
      CutLineAt(s[1..], i - 1);
      assert i < |s| ==> [s[0]] + s[1..][..i] == s[..i + 1];
    }
  }

  function CutBlock(s: string, n: nat): (Option<string>, string) {
    if |s| < n then (None, "") else (Some(s[..n]), s[n..])
  }

  // ------------------------------------------------------------ addresses --

  datatype Addr = V4(bytes: string) | V6(bytes: string)

  predicate ProperAddr(a: Addr) {
    match a
    case V4(bytes) => |bytes| == 4
    case V6(bytes) => |bytes| == 16
  }

  predicate IsMapped(a: Addr) {
    a.V6? && |a.bytes| == 16 && (forall i | 0 <= i < 10 :: a.bytes[i] == '\0') && a.bytes[10] == a.bytes[11] == '\U{FF}'
  }

  /** The text form of addresses, abstractly. */
  datatype Texts = Texts(parse: string -> Option<Addr>, format: Addr -> string)

  predicate IsSpace(c: char) {
    c == ' ' || '\t' <= c <= '\r'
  }

  predicate IsWord(s: string) {
    s != "" && forall i | 0 <= i < |s| :: !IsSpace(s[i])
  }

  /** Formatted addresses are words of at most 39 characters that parse back. */
  ghost predicate Lawful(t: Texts) {
    forall a | ProperAddr(a) :: t.parse(t.format(a)) == Some(a) && IsWord(t.format(a)) && |t.format(a)| <= 39
  }

  // ---------------------------------------------------------------- parsing --

  datatype Result = Client(addr: Addr, port: nat) | NoClient | NoPreamble | Malformed

  function Word(s: string): (w: string)
    ensures HasPrefix(s, w)
  {
    if s == "" || IsSpace(s[0]) then "" else [s[0]] + Word(s[1..])
  }

  /** `strings.Fields` on ASCII text. */
  function Fields(s: string): seq<string> {
    if s == "" then []
    else if IsSpace(s[0]) then Fields(s[1..])
    else [Word(s)] + Fields(s[|Word(s)|..])
  }

  function Value(digits: string): nat
    requires forall i | 0 <= i < |digits| :: '0' <= digits[i] <= '9'
  {
    if digits == "" then 0 else 10 * Value(digits[..|digits| - 1]) + (digits[|digits| - 1] as int - '0' as int)
  }

  function ParsePort(s: string): Option<nat> {
    if s == "" || exists i | 0 <= i < |s| :: !('0' <= s[i] <= '9') then None
    else if Value(s) > 0xFFFF then None
    else Some(Value(s))
  }

  function ParseLine(t: Texts, line: string): Result {
    var fields := Fields(TrimSuffix(TrimSuffix(line, "\n"), "\r"));
    if |line| > MaxLineLength then Malformed
    else if |fields| >= 2 && fields[1] == "UNKNOWN" then NoClient
    else if |fields| != 6 then Malformed
    else
      var source := t.parse(fields[2]);
      if source.None? then Malformed
      else if fields[1] == "TCP4" && source.value.V6? then Malformed
      else if fields[1] == "TCP6" && (source.value.V4? || IsMapped(source.value)) then Malformed
      else if fields[1] != "TCP4" && fields[1] != "TCP6" then Malformed
      else
        match ParsePort(fields[4])
        case None => Malformed
        case Some(port) => Client(source.value, port)
  }

  function BigEndian(hi: char, lo: char): nat {
    hi as int * 256 + lo as int
  }

  function ParseBlock(command: int, family: int, body: string): Result {
    if command == 0x20 then NoClient
    else if command != 0x21 then Malformed
    else if family == 0x00 then NoClient
    else if family != 0x11 && family != 0x21 then Malformed
    else
      var size := if family == 0x11 then 4 else 16;
      if |body| < 2 * size + 4 then Malformed
      else
        var source := body[..size];
        Client(if family == 0x11 then V4(source) else V6(source), BigEndian(body[2 * size], body[2 * size + 1]))
  }

  /** What a read gives and what it leaves in the stream. */
  datatype Outcome = Outcome(result: Result, rest: string)

  function Parsed1(t: Texts, s: string): Outcome {
    var (line, rest) := CutLine(s);
    Outcome(if line.None? then Malformed else ParseLine(t, line.value), rest)
  }

  function Parsed2(s: string): Outcome {
    var (header, afterHeader) := CutBlock(s, 16);
    if header.None? then Outcome(Malformed, afterHeader)
    else
      var h := header.value;
      var (body, rest) := CutBlock(afterHeader, BigEndian(h[14], h[15]));
      Outcome(if body.None? then Malformed else ParseBlock(h[12] as int, h[13] as int, body.value), rest)
  }

  function Parsed(t: Texts, s: string): Outcome {
    if |s| < 12 then Outcome(NoPreamble, s)
    else if s[..12] == Signature then Parsed2(s)
    else if s[..6] != "PROXY " then Outcome(NoPreamble, s)
    else Parsed1(t, s)
  }

  method ReadV1(r: Reader, t: Texts) returns (result: Result)
    modifies r
    ensures Outcome(result, r.stream) == Parsed1(t, old(r.stream))
  {
    var line := r.ReadLine();
    if line.None? {
      return Malformed;
    }
    if |line.value| > MaxLineLength {
      return Malformed;
    }
    var fields := Fields(TrimSuffix(TrimSuffix(line.value, "\n"), "\r"));
    if |fields| >= 2 && fields[1] == "UNKNOWN" {
      return NoClient;
    }
    if |fields| != 6 {
      return Malformed;
    }
    var source := t.parse(fields[2]);
    if source.None? {
      return Malformed;
    }
    if fields[1] == "TCP4" {
      if !source.value.V4? {
        return Malformed;
      }
    } else if fields[1] == "TCP6" {
      if !source.value.V6? || IsMapped(source.value) {
        return Malformed;
      }
    } else {
      return Malformed;
    }
    var port := ParsePort(fields[4]);
    if port.None? {
      return Malformed;
    }
    result := Client(source.value, port.value);
  }

  method ReadV2(r: Reader) returns (result: Result)
    modifies r
    ensures Outcome(result, r.stream) == Parsed2(old(r.stream))
  {
    var header := r.ReadFull(|Signature| + 4);
    if header.None? {
      return Malformed;
    }
    var command := header.value[|Signature|] as int;
    var family := header.value[|Signature| + 1] as int;
    var length := BigEndian(header.value[|Signature| + 2], header.value[|Signature| + 3]);
    var body := r.ReadFull(length);
    if body.None? {
      return Malformed;
    }
    if command == 0x20 {
      return NoClient;
    }
    if command != 0x21 {
      return Malformed;
    }
    var size := 0;
    if family == 0x11 {
      size := 4;
    } else if family == 0x21 {
      size := 16;
    } else if family == 0x00 {
      return NoClient;
    } else {
      return Malformed;
    }
    if length < size * 2 + 4 {
      return Malformed;
    }
    var source := body.value[..size];
    var port := BigEndian(body.value[size * 2], body.value[size * 2 + 1]);
    result := Client(if size == 4 then V4(source) else V6(source), port);
  }

  /** `Read`: consumes one preamble. */
  method Read(r: Reader, t: Texts) returns (result: Result)
    modifies r
    ensures Outcome(result, r.stream) == Parsed(t, old(r.stream))
  {
    var prefix := r.Peek(|Signature|);
    if prefix.None? {
      return NoPreamble;
    }
    if prefix.value == Signature {
      result := ReadV2(r);
      return;
    }
    if prefix.value[..6] != "PROXY " {
      return NoPreamble;
    }
    result := ReadV1(r, t);
  }

  // ----------------------------------------------------- version 1 encoding --

  function Spaced(words: seq<string>): string
    requires words != []
  {
    if |words| == 1 then words[0] else words[0] + " " + Spaced(words[1..])
  }

  function Family(a: Addr): string {
    if a.V4? then "TCP4" else "TCP6"
  }

  function Words(t: Texts, source: Addr, destination: Addr, port: nat, destinationPort: nat): seq<string> {
    ["PROXY", Family(source), t.format(source), t.format(destination), Decimal(port), Decimal(destinationPort)]
  }

  function Encoded1(t: Texts, source: Addr, destination: Addr, port: nat, destinationPort: nat): string {
    Spaced(Words(t, source, destination, port, destinationPort)) + "\r\n"
  }

  lemma {:induction false} WordIsWhole(w: string, rest: string)
    requires forall i | 0 <= i < |w| :: !IsSpace(w[i])
    requires rest == "" || IsSpace(rest[0])
    ensures Word(w + rest) == w
  {
    if w != "" {
      assert (w + rest)[1..] == w[1..] + rest;
      WordIsWhole(w[1..], rest);
    } else {
      assert w + rest == rest;
    }
  }

  lemma {:induction false} FieldsOfSpaced(words: seq<string>)
    requires words != [] && forall i | 0 <= i < |words| :: IsWord(words[i])
    ensures Fields(Spaced(words)) == words
  {
    var w := words[0];
    if |words| == 1 {
      WordIsWhole(w, "");
      assert w + "" == w;
      assert Fields(w) == [w] + Fields(w[|w|..]);
    } else {
      var rest := Spaced(words[1..]);
      var s := w + " " + rest;
      assert s == w + (" " + rest);
      WordIsWhole(w, " " + rest);
      assert s[|w|..] == " " + rest;
      assert (" " + rest)[1..] == rest;
      FieldsOfSpaced(words[1..]);
      assert Fields(s) == [w] + Fields(" " + rest);
    }
  }

  lemma {:induction false} SpacedHasNoFeed(words: seq<string>)
    requires words != [] && forall i | 0 <= i < |words| :: IsWord(words[i])
    ensures '\n' !in Spaced(words)
  {
    if |words| > 1 {
      SpacedHasNoFeed(words[1..]);
      assert '\n' !in words[0];
    }
  }

  lemma {:induction false} DecimalReadsBack(n: nat)
    ensures Value(Decimal(n)) == n
  {
    var s := Decimal(n);
    if n < 10 {
      assert s[..0] == "";
      assert Value(s) == 10 * Value(s[..0]) + n;
    } else {
      DecimalReadsBack(n / 10);
      assert s[..|s| - 1] == Decimal(n / 10);
    }
  }

  lemma DecimalIsShort(n: nat)
    requires n < 0x1_0000
    ensures |Decimal(n)| <= 5 && IsWord(Decimal(n))
  {
    assert |Decimal(n)| <= 5 by {
      assert n / 10 < 6554 && n / 10 / 10 < 656 && n / 10 / 10 / 10 < 66 && n / 10 / 10 / 10 / 10 < 10;
      assert |Decimal(n / 10 / 10 / 10 / 10)| == 1;
      assert |Decimal(n / 10 / 10 / 10)| <= 2;
      assert |Decimal(n / 10 / 10)| <= 3;
      assert |Decimal(n / 10)| <= 4;
    }
  }

  lemma PortReadsBack(port: nat)
    requires port < 0x1_0000
    ensures ParsePort(Decimal(port)) == Some(port)
  {
    DecimalReadsBack(port);
  }

  lemma WordsAreWords(t: Texts, source: Addr, destination: Addr, port: nat, destinationPort: nat)
    requires Lawful(t) && ProperAddr(source) && ProperAddr(destination) && port < 0x1_0000 && destinationPort < 0x1_0000
    ensures forall i | 0 <= i < 6 :: IsWord(Words(t, source, destination, port, destinationPort)[i])
    ensures |Encoded1(t, source, destination, port, destinationPort)| <= MaxLineLength
  {
    DecimalIsShort(port);
    DecimalIsShort(destinationPort);
    var words := Words(t, source, destination, port, destinationPort);
    assert IsWord(t.format(source)) && IsWord(t.format(destination));
    assert |Spaced(words[5..])| == |words[5]|;
    assert words[4..][1..] == words[5..] && words[3..][1..] == words[4..] && words[2..][1..] == words[3..] && words[1..][1..] == words[2..];
    assert |Spaced(words[4..])| == |words[4]| + 1 + |words[5]|;
    assert |Spaced(words[3..])| == |words[3]| + 1 + |Spaced(words[4..])|;
    assert |Spaced(words[2..])| == |words[2]| + 1 + |Spaced(words[3..])|;
    assert |Spaced(words[1..])| == |words[1]| + 1 + |Spaced(words[2..])|;
    assert |Spaced(words)| == |words[0]| + 1 + |Spaced(words[1..])|;
  }

  /** One line of words is cut off, trimmed and split as it was put together. */
  lemma LineReadsBack(words: seq<string>, following: string)
    requires words != [] && forall i | 0 <= i < |words| :: IsWord(words[i])
    ensures
      var line := Spaced(words) + "\r\n";
      && CutLine(line + following) == (Some(line), following)
      && Fields(TrimSuffix(TrimSuffix(line, "\n"), "\r")) == words
  {
    var text := Spaced(words);
    var line := text + "\r\n";
    SpacedHasNoFeed(words);
    FieldsOfSpaced(words);
    var s := line + following;
    assert s[..|text| + 1] == text + "\r";
    CutLineAt(s, |text| + 1);
    assert s[..|text| + 2] == line && s[|text| + 2..] == following;
    assert TrimSuffix(line, "\n") == text + "\r" by {
      assert line[|line| - 1..] == "\n" && line[..|line| - 1] == text + "\r";
    }
    assert TrimSuffix(text + "\r", "\r") == text by {
      assert (text + "\r")[|text|..] == "\r" && (text + "\r")[..|text|] == text;
    }
  }

  lemma LineStarts(words: seq<string>, following: string)
    requires |words| == 6 && words[0] == "PROXY" && forall i | 0 <= i < |words| :: IsWord(words[i])
    ensures
      var s := Spaced(words) + "\r\n" + following;
      |s| >= 12 && s[..6] == "PROXY " && s[..12] != Signature
  {
    var tail := Spaced(words[1..]);
    assert Spaced(words) == "PROXY" + " " + tail;
    assert words[1..][1..] == words[2..] && words[2..][1..] == words[3..] && words[3..][1..] == words[4..];
    assert |tail| == |words[1]| + 1 + |Spaced(words[2..])|;
    assert |Spaced(words[2..])| == |words[2]| + 1 + |Spaced(words[3..])|;
    assert |Spaced(words[3..])| == |words[3]| + 1 + |Spaced(words[4..])|;
    var s := Spaced(words) + "\r\n" + following;
    assert s[0] == 'P' && Signature[0] == '\r';
    assert s[..12][0] == 'P';
  }

  /** Reading an encoded version 1 preamble yields its source and leaves exactly what follows,
      for every source address but the IPv4-mapped ones, which the reader refuses. */
  lemma Version1RoundTrip(t: Texts, source: Addr, destination: Addr, port: nat, destinationPort: nat, following: string)
    requires Lawful(t) && ProperAddr(source) && ProperAddr(destination) && port < 0x1_0000 && destinationPort < 0x1_0000
    ensures Parsed(t, Encoded1(t, source, destination, port, destinationPort) + following) ==
            Outcome(if IsMapped(source) then Malformed else Client(source, port), following)
  {
    var words := Words(t, source, destination, port, destinationPort);
    WordsAreWords(t, source, destination, port, destinationPort);
    LineReadsBack(words, following);
    LineStarts(words, following);
    PortReadsBack(port);
    assert t.parse(t.format(source)) == Some(source);
  }

  // ----------------------------------------------------- version 2 encoding --

  function Bytes16(n: nat): string
    requires n < 0x1_0000
  {
    [(n / 256) as char, (n % 256) as char]
  }

  function Block(source: Addr, destination: Addr, port: nat, destinationPort: nat, extensions: string): string
    requires port < 0x1_0000 && destinationPort < 0x1_0000
  {
    source.bytes + destination.bytes + Bytes16(port) + Bytes16(destinationPort) + extensions
  }

  const Local := '\U{20}'
  const Proxied := '\U{21}'

  function Header(command: char, family: char, length: nat): string
    requires length < 0x1_0000
  {
    Signature + [command, family] + Bytes16(length)
  }

  function Encoded2(source: Addr, destination: Addr, port: nat, destinationPort: nat, extensions: string): string
    requires port < 0x1_0000 && destinationPort < 0x1_0000
    requires |Block(source, destination, port, destinationPort, extensions)| < 0x1_0000
  {
    var block := Block(source, destination, port, destinationPort, extensions);
    Header(Proxied, if source.V4? then '\U{11}' else '\U{21}', |block|) + block
  }

  lemma Bytes16ReadBack(n: nat)
    requires n < 0x1_0000
    ensures BigEndian(Bytes16(n)[0], Bytes16(n)[1]) == n
  {
  }

  /** A header with its declared block is consumed to the byte. */
  lemma HeaderReadsBack(t: Texts, command: char, family: char, block: string, following: string)
    requires |block| < 0x1_0000
    ensures Parsed(t, Header(command, family, |block|) + block + following) ==
            Outcome(ParseBlock(command as int, family as int, block), following)
  {
    var header := Header(command, family, |block|);
    var s := header + block + following;
    assert |header| == 16;
    assert s[..16] == header && s[16..] == block + following;
    assert s[..12] == Signature by {
      assert header[..12] == Signature;
    }
    Bytes16ReadBack(|block|);
    assert header[12] == command && header[13] == family && header[14] == Bytes16(|block|)[0] && header[15] == Bytes16(|block|)[1];
    assert (block + following)[..|block|] == block && (block + following)[|block|..] == following;
  }

  lemma BlockReadsBack(source: Addr, destination: Addr, port: nat, destinationPort: nat, extensions: string)
    requires ProperAddr(source) && ProperAddr(destination) && source.V4? == destination.V4?
    requires port < 0x1_0000 && destinationPort < 0x1_0000
    ensures ParseBlock(0x21, if source.V4? then 0x11 else 0x21, Block(source, destination, port, destinationPort, extensions)) ==
            Client(source, port)
  {
    var body := Block(source, destination, port, destinationPort, extensions);
    var size := |source.bytes|;
    assert body[..size] == source.bytes;
    assert body[2 * size] == Bytes16(port)[0] && body[2 * size + 1] == Bytes16(port)[1];
    Bytes16ReadBack(port);
  }

  /** Reading an encoded version 2 preamble yields its source, whatever type-length-value entries
      it carries, and leaves exactly what follows. */
  lemma Version2RoundTrip(t: Texts, source: Addr, destination: Addr, port: nat, destinationPort: nat, extensions: string, following: string)
    requires ProperAddr(source) && ProperAddr(destination) && source.V4? == destination.V4?
    requires port < 0x1_0000 && destinationPort < 0x1_0000
    requires |Block(source, destination, port, destinationPort, extensions)| < 0x1_0000
    ensures Parsed(t, Encoded2(source, destination, port, destinationPort, extensions) + following) == Outcome(Client(source, port), following)
  {
    var block := Block(source, destination, port, destinationPort, extensions);
    HeaderReadsBack(t, Proxied, if source.V4? then '\U{11}' else '\U{21}', block, following);
    BlockReadsBack(source, destination, port, destinationPort, extensions);
  }

  // ------------------------------------------------- preambles without a client --

  /** A LOCAL preamble of any family, and one for an unspecified family, names no client, whatever
      block it declares. */
  lemma LocalNamesNobody(t: Texts, command: char, family: char, block: string, following: string)
    requires |block| < 0x1_0000 && (command == Local || (command == Proxied && family == '\0'))
    ensures Parsed(t, Header(command, family, |block|) + block + following) == Outcome(NoClient, following)
  {
    HeaderReadsBack(t, command, family, block, following);
  }

  /** Any other command, any other family but the two of TCP, and a block too short for its family
      are refused, the block being consumed all the same. */
  lemma UnsupportedIsRefused(t: Texts, command: char, family: char, block: string, following: string)
    requires |block| < 0x1_0000
    requires
      || (command != Local && command != Proxied)
      || (command == Proxied && family != '\0' && family != '\U{11}' && family != '\U{21}')
      || (command == Proxied && family == '\U{11}' && |block| < 12)
      || (command == Proxied && family == '\U{21}' && |block| < 36)
    ensures Parsed(t, Header(command, family, |block|) + block + following) == Outcome(Malformed, following)
  {
    HeaderReadsBack(t, command, family, block, following);
  }

  /** A stream that ends inside the header or inside the declared block is refused. */
  lemma TruncatedIsRefused(t: Texts, s: string)
    requires |s| >= 12 && s[..12] == Signature
    requires |s| < 16 || |s| < 16 + BigEndian(s[14], s[15])
    ensures Parsed(t, s).result == Malformed
  {
    if |s| >= 16 {
      assert s[..16][14] == s[14] && s[..16][15] == s[15];
    }
  }

  lemma {:induction false} WordOfSpace(s: string, space: string)
    requires space != "" && forall i | 0 <= i < |space| :: IsSpace(space[i])
    ensures Fields(space + s) == Fields(s)
  {
    assert (space + s)[1..] == space[1..] + s;
    if |space| > 1 {
      WordOfSpace(s, space[1..]);
    } else {
      assert space[1..] + s == s;
    }
  }

  lemma FieldsStart(w: string, rest: string)
    requires IsWord(w) && (rest == "" || IsSpace(rest[0]))
    ensures Fields(w + rest) == [w] + Fields(rest)
  {
    WordIsWhole(w, rest);
    assert (w + rest)[|w|..] == rest;
  }

  lemma LineIsCut(text: string, following: string)
    requires '\n' !in text
    ensures CutLine(text + "\n" + following) == (Some(text + "\n"), following)
    ensures TrimSuffix(text + "\n", "\n") == text
  {
    var s := text + "\n" + following;
    assert s[..|text|] == text;
    CutLineAt(s, |text|);
    assert s[..|text| + 1] == text + "\n" && s[|text| + 1..] == following;
    assert (text + "\n")[|text|..] == "\n" && (text + "\n")[..|text|] == text;
  }

  const Unknown := "PROXY UNKNOWN"

  lemma NextField(w: string, tail: string)
    requires IsWord(w) && (tail == "" || IsSpace(tail[0]))
    ensures Fields(" " + (w + tail)) == [w] + Fields(tail)
  {
    WordOfSpace(w + tail, " ");
    FieldsStart(w, tail);
  }

  lemma UnknownFields(tail: string)
    requires tail == "" || IsSpace(tail[0])
    ensures |Fields(Unknown + tail)| >= 2 && Fields(Unknown + tail)[1] == "UNKNOWN"
  {
    var first, second := "PROXY", "UNKNOWN";
    assert IsWord(first) && IsWord(second);
    UnknownSplits(tail);
    FieldsStart(first, " " + (second + tail));
    NextField(second, tail);
  }

  lemma UnknownSplits(tail: string)
    ensures Unknown + tail == "PROXY" + (" " + ("UNKNOWN" + tail))
  {
    assert Unknown == "PROXY" + (" " + "UNKNOWN");
  }

  lemma UnknownStarts(tail: string, following: string)
    ensures
      var s := Unknown + tail + "\n" + following;
      |s| >= 12 && s[..6] == "PROXY " && s[..12] != Signature
  {
    var s := Unknown + tail + "\n" + following;
    assert s[..6] == Unknown[..6];
    assert s[..12][0] == 'P' && Signature[0] == '\r';
  }

  /** Every line that says UNKNOWN, whatever follows on it, names no client. */
  lemma UnknownNamesNobody(t: Texts, tail: string, following: string)
    requires '\n' !in tail && (tail == "" || IsSpace(tail[0])) && |Unknown + tail + "\n"| <= MaxLineLength
    ensures Parsed(t, Unknown + tail + "\n" + following) == Outcome(NoClient, following)
  {
    var text := Unknown + tail;
    LineIsCut(text, following);
    UnknownStarts(tail, following);
    assert !HasSuffix(Unknown, "\r") && (tail == "" ==> text == Unknown);
    if HasSuffix(text, "\r") {
      var shorter := tail[..|tail| - 1];
      assert TrimSuffix(text, "\r") == Unknown + shorter;
      UnknownFields(shorter);
    } else {
      UnknownFields(tail);
    }
  }

  /** A stream of less than twelve bytes, or one that begins neither with the signature nor with the
      word PROXY and a space, has no preamble, and nothing of it is consumed. */
  lemma NoPreambleIsLeft(t: Texts, s: string)
    ensures Parsed(t, s).result == NoPreamble <==> |s| < 12 || !(HasPrefix(s, Signature) || HasPrefix(s, "PROXY "))
    ensures Parsed(t, s).result == NoPreamble ==> Parsed(t, s).rest == s
  {
  }

  // --------------------------------------------------------------- soundness --

  predicate IsBytes(s: string) {
    forall i | 0 <= i < |s| :: s[i] as int < 256
  }

  lemma Bytes16Write(hi: char, lo: char)
    requires hi as int < 256 && lo as int < 256
    ensures BigEndian(hi, lo) < 0x1_0000 && Bytes16(BigEndian(hi, lo)) == [hi, lo]
  {
  }

  /** A client read from a version 2 preamble is one that was encoded: the bytes consumed are an
      encoding of exactly that client. */
  lemma Version2IsSound(t: Texts, s: string) returns (destination: Addr, destinationPort: nat, extensions: string)
    requires IsBytes(s) && HasPrefix(s, Signature) && Parsed(t, s).result.Client?
    ensures
      var Outcome(client, rest) := Parsed(t, s);
      && ProperAddr(client.addr) && ProperAddr(destination) && client.addr.V4? == destination.V4?
      && client.port < 0x1_0000 && destinationPort < 0x1_0000
      && |Block(client.addr, destination, client.port, destinationPort, extensions)| < 0x1_0000
      && s == Encoded2(client.addr, destination, client.port, destinationPort, extensions) + rest
  {
    var Outcome(client, rest) := Parsed(t, s);
    var family, length := s[13], BigEndian(s[14], s[15]);
    assert s[..16][12] == s[12] && s[..16][13] == s[13] && s[..16][14] == s[14] && s[..16][15] == s[15];
    var body := s[16..][..length];
    var size := |client.addr.bytes|;
    destination := if client.addr.V4? then V4(body[size..2 * size]) else V6(body[size..2 * size]);
    destinationPort := BigEndian(body[2 * size + 2], body[2 * size + 3]);
    extensions := body[2 * size + 4..];
    BodyIsBytes(s, length);
    Bytes16Write(s[14], s[15]);
    Bytes16Write(body[2 * size], body[2 * size + 1]);
    Bytes16Write(body[2 * size + 2], body[2 * size + 3]);
    BlockIsWhole(body, size);
    assert body == Block(client.addr, destination, client.port, destinationPort, extensions);
    assert s[..16] == Header(Proxied, family, length);
    assert s == s[..16] + body + rest;
  }

  lemma BodyIsBytes(s: string, length: nat)
    requires IsBytes(s) && 16 + length <= |s|
    ensures IsBytes(s[16..][..length])
  {
  }

  lemma BlockIsWhole(body: string, size: nat)
    requires |body| >= 2 * size + 4
    ensures body == body[..size] + body[size..2 * size] + [body[2 * size], body[2 * size + 1]] + [body[2 * size + 2], body[2 * size + 3]] +
                    body[2 * size + 4..]
  {
  }

  /** The refused addresses are exactly those of the form ::ffff:a.b.c.d. */
  lemma MappedStandsForIpv4(a: Addr)
    requires ProperAddr(a)
    ensures IsMapped(a) <==> exists four: string | |four| == 4 :: a == V6("\0\0\0\0\0\0\0\0\0\0" + "\U{FF}\U{FF}" + four)
  {
    if IsMapped(a) {
      assert a.bytes == "\0\0\0\0\0\0\0\0\0\0" + "\U{FF}\U{FF}" + a.bytes[12..];
    }
  }

  /** The port a text stands for. */
  predicate IsPort(digits: string, port: nat) {
    && digits != "" && (forall i | 0 <= i < |digits| :: '0' <= digits[i] <= '9')
    && port == Value(digits) < 0x1_0000
  }

  /** A version 1 preamble gives a client exactly when its line has at most 107 bytes and six fields
      that name it: the family of the source address, that address, not IPv4-mapped, and its port.
      It gives none exactly when the second field says UNKNOWN. Anything else is refused, a line
      that never ends included. */
  lemma Version1IsExact(t: Texts, s: string, addr: Addr, port: nat)
    requires |s| >= 12 && HasPrefix(s, "PROXY ")
    ensures
      var result, line := Parsed(t, s).result, CutLine(s).0;
      if line.None? || |line.value| > MaxLineLength then result == Malformed
      else
        var fields := Fields(TrimSuffix(TrimSuffix(line.value, "\n"), "\r"));
        && (result == NoClient <==> SaysUnknown(fields))
        && (result == Client(addr, port) <==> NamesClient(t, fields, addr, port))
        && result != NoPreamble
  {
    assert s[0] == 'P' && s[..12][0] == 'P' && Signature[0] == '\r';
    assert Parsed(t, s) == Parsed1(t, s);
    var line := CutLine(s).0;
    if line.Some? {
      LineIsExact(t, line.value, addr, port);
    }
  }

  predicate SaysUnknown(fields: seq<string>) {
    |fields| >= 2 && fields[1] == "UNKNOWN"
  }

  predicate NamesClient(t: Texts, fields: seq<string>, addr: Addr, port: nat) {
    && |fields| == 6 && fields[1] == Family(addr) && t.parse(fields[2]) == Some(addr) && !IsMapped(addr)
    && IsPort(fields[4], port)
  }

  lemma LineIsExact(t: Texts, line: string, addr: Addr, port: nat)
    ensures
      var fields := Fields(TrimSuffix(TrimSuffix(line, "\n"), "\r"));
      if |line| > MaxLineLength then ParseLine(t, line) == Malformed
      else
        && (ParseLine(t, line) == NoClient <==> SaysUnknown(fields))
        && (ParseLine(t, line) == Client(addr, port) <==> NamesClient(t, fields, addr, port))
        && ParseLine(t, line) != NoPreamble
  {
  }

  // ------------------------------------------------------------ consumption --

  lemma {:induction false} CutLineConsumes(s: string)
    requires CutLine(s).0.Some?
    ensures
      var line := CutLine(s).0.value;
      && s == line + CutLine(s).1
      && |line| > 0 && line[|line| - 1] == '\n' && '\n' !in line[..|line| - 1]
  {
    if s[0] != '\n' {
      CutLineConsumes(s[1..]);
      var rest := CutLine(s[1..]).0.value;
      var line := [s[0]] + rest;
      assert s == [s[0]] + s[1..];
      assert line[..|line| - 1] == [s[0]] + rest[..|rest| - 1];
    }
  }

  /** The bytes a read took from the stream. */
  ghost predicate Consumed(s: string, preamble: string, rest: string) {
    s == preamble + rest
  }

  /** A successful read, with a client or without one, consumes exactly one line of at most 107
      bytes, or exactly the sixteen header bytes and the length they declare. */
  lemma SuccessConsumesOnePreamble(t: Texts, s: string)
    requires Parsed(t, s).result.Client? || Parsed(t, s).result.NoClient?
    ensures exists preamble | Consumed(s, preamble, Parsed(t, s).rest) ::
      if s[..12] == Signature then |preamble| == 16 + BigEndian(s[14], s[15])
      else
        && HasPrefix(s, "PROXY ") && 0 < |preamble| <= MaxLineLength
        && preamble[|preamble| - 1] == '\n' && '\n' !in preamble[..|preamble| - 1]
  {
    var rest := Parsed(t, s).rest;
    if s[..12] == Signature {
      var length := BigEndian(s[14], s[15]);
      assert s[..16][14] == s[14] && s[..16][15] == s[15];
      assert s[16..][..length] + s[16..][length..] == s[16..];
      assert Consumed(s, s[..16 + length], rest);
    } else {
      CutLineConsumes(s);
      assert Consumed(s, CutLine(s).0.value, rest);
    }
  }
}
