/** Text framing: every message ends in a record separator. Parsing is the exact inverse of
    writing, and the handshake response is cut off after the first frame. */
module Framing {
  import opened Options

  const RECORD_SEPARATOR_CODE: int := 0x1e
  const RECORD_SEPARATOR: char := RECORD_SEPARATOR_CODE as char

  datatype Parsed = Messages(messages: seq<string>) | Incomplete

  function Write(output: string): string {
    output + [RECORD_SEPARATOR]
  }

  /** The pieces of `s` between occurrences of `sep`. */
  function Split(s: string, sep: char): (r: seq<string>)
    ensures |r| >= 1
  {
    if s == "" then [""]
    else
      var rest := Split(s[1..], sep);
      if s[0] == sep then [""] + rest else [[s[0]] + rest[0]] + rest[1..]
  }

  function Parse(input: string): Parsed {
    if |input| == 0 || input[|input| - 1] != RECORD_SEPARATOR then Incomplete
    else
      var messages := Split(input, RECORD_SEPARATOR);
      Messages(messages[..|messages| - 1])
  }

  /** Frames one behind the other. */
  function WriteAll(ms: seq<string>): string {
    if ms == [] then "" else Write(ms[0]) + WriteAll(ms[1..])
  }

  predicate Separable(m: string) {
    RECORD_SEPARATOR !in m
  }

  predicate AllSeparable(ms: seq<string>) {
    forall k :: 0 <= k < |ms| ==> Separable(ms[k])
  }

  lemma {:induction false} SplitFrame(m: string, rest: string)
    requires Separable(m)
    ensures Split(Write(m) + rest, RECORD_SEPARATOR) == [m] + Split(rest, RECORD_SEPARATOR)
  {
    var s := Write(m) + rest;
    if m == "" {
      assert s[1..] == rest;
    } else {
      assert s[1..] == Write(m[1..]) + rest;
      SplitFrame(m[1..], rest);
      assert [m[0]] + m[1..] == m;
    }
  }

  lemma {:induction false} SplitFrames(ms: seq<string>)
    requires AllSeparable(ms)
    ensures Split(WriteAll(ms), RECORD_SEPARATOR) == ms + [""]
  {
    if ms != [] {
      SplitFrame(ms[0], WriteAll(ms[1..]));
      SplitFrames(ms[1..]);
      assert [ms[0]] + (ms[1..] + [""]) == ms + [""];
    }
  }

  lemma {:induction false} LastIsSeparator(ms: seq<string>)
    requires ms != []
    ensures WriteAll(ms) != "" && WriteAll(ms)[|WriteAll(ms)| - 1] == RECORD_SEPARATOR
  {
    if |ms| == 1 {
      assert WriteAll(ms) == Write(ms[0]) + "";
    } else {
      LastIsSeparator(ms[1..]);
    }
  }

  /** The pieces have no separator, and joining them with separators gives the text back. */
  lemma {:induction false} SplitJoins(s: string)
    ensures var r := Split(s, RECORD_SEPARATOR);
            AllSeparable(r) && s == JoinBack(r)
  {
    var r := Split(s, RECORD_SEPARATOR);
    if s != "" {
      SplitJoins(s[1..]);
      var rest := Split(s[1..], RECORD_SEPARATOR);
      assert s == [s[0]] + s[1..];
      if s[0] == RECORD_SEPARATOR {
        JoinSeparator(rest);
      } else {
        JoinChar(s[0], rest);
      }
    }
  }

  function JoinBack(r: seq<string>): string
    requires r != []
  {
    WriteAll(r[..|r| - 1]) + r[|r| - 1]
  }

  lemma JoinBackEnds(r: seq<string>)
    requires r != [] && Separable(r[|r| - 1])
    requires JoinBack(r) != "" && JoinBack(r)[|JoinBack(r)| - 1] == RECORD_SEPARATOR
    ensures r[|r| - 1] == ""
  {
  }

  lemma JoinSeparator(rest: seq<string>)
    requires rest != [] && AllSeparable(rest)
    ensures AllSeparable([""] + rest) && JoinBack([""] + rest) == [RECORD_SEPARATOR] + JoinBack(rest)
  {
    var r := [""] + rest;
    assert r[..|r| - 1] == [""] + rest[..|rest| - 1];
    assert WriteAll(r[..|r| - 1]) == Write("") + WriteAll(rest[..|rest| - 1]);
  }

  lemma JoinChar(c: char, rest: seq<string>)
    requires rest != [] && AllSeparable(rest) && c != RECORD_SEPARATOR
    ensures var r := [[c] + rest[0]] + rest[1..];
            AllSeparable(r) && JoinBack(r) == [c] + JoinBack(rest)
  {
    var r := [[c] + rest[0]] + rest[1..];
    if |r| > 1 {
      assert r[..|r| - 1][1..] == rest[..|rest| - 1][1..];
      assert WriteAll(r[..|r| - 1]) == [c] + WriteAll(rest[..|rest| - 1]);
    }
  }

  /** Parsing and writing are inverse to each other: a text parses to `ms` exactly when it is the frames of `ms`,
      at least one, with no separator inside a message. Every other text is incomplete. */
  lemma ParseExactly(input: string, ms: seq<string>)
    ensures Parse(input) == Messages(ms) <==> ms != [] && AllSeparable(ms) && input == WriteAll(ms)
  {
    if ms != [] && AllSeparable(ms) && input == WriteAll(ms) {
      SplitFrames(ms);
      LastIsSeparator(ms);
    }
    if Parse(input) == Messages(ms) {
      SplitJoins(input);
      var r := Split(input, RECORD_SEPARATOR);
      var last := r[|r| - 1];
      JoinBackEnds(r);
      assert last == "";
      assert WriteAll(ms) + "" == WriteAll(ms);
      assert input == WriteAll(ms);
    }
  }

  // ---------- The handshake response ----------

  datatype Handshake<T> = Response(text: string, remaining: Option<seq<T>>) | HandshakeIncomplete

  /** Position of the first occurrence, -1 for none. */
  function IndexOf<T(==)>(s: seq<T>, x: T): (i: int)
    ensures -1 <= i < |s|
    ensures i == -1 ==> x !in s
    ensures i != -1 ==> s[i] == x && x !in s[..i]
  {
    if s == [] then -1
    else if s[0] == x then 0
    else
      var i := IndexOf(s[1..], x);
      assert i != -1 ==> s[..i + 1] == [s[0]] + s[1..][..i];
      if i == -1 then -1 else i + 1
  }

  /** Cut a text after its first frame; `text` is what is parsed as the response. */
  function ParseHandshakeText(data: string): Handshake<char> {
    var separatorIndex := IndexOf(data, RECORD_SEPARATOR);
    if separatorIndex == -1 then HandshakeIncomplete
    else
      var responseLength := separatorIndex + 1;
      var remaining := if |data| > responseLength then Some(data[responseLength..]) else None;
      match Parse(data[..responseLength])
      case Messages(messages) =>
        if messages == [] then HandshakeIncomplete else Response(messages[0], remaining)
      case Incomplete => HandshakeIncomplete
  }

  newtype byte = x: int | 0 <= x < 256

  function FromCharCode(bytes: seq<byte>): (r: string)
    ensures |r| == |bytes| && forall k :: 0 <= k < |r| ==> r[k] == bytes[k] as char
  {
    seq(|bytes|, k requires 0 <= k < |bytes| => bytes[k] as char)
  }

  /** The same for binary data; the response in front is text all the same. */
  function ParseHandshakeBinary(data: seq<byte>): Handshake<byte> {
    var separatorIndex := IndexOf(data, RECORD_SEPARATOR_CODE as byte);
    if separatorIndex == -1 then HandshakeIncomplete
    else
      var responseLength := separatorIndex + 1;
      var remaining := if |data| > responseLength then Some(data[responseLength..]) else None;
      match Parse(FromCharCode(data[..responseLength]))
      case Messages(messages) =>
        if messages == [] then HandshakeIncomplete else Response(messages[0], remaining)
      case Incomplete => HandshakeIncomplete
  }

  lemma {:induction false} FirstAt<T>(s: seq<T>, x: T, i: nat)
    requires i < |s| && s[i] == x && x !in s[..i]
    ensures IndexOf(s, x) == i
  {
    if i > 0 {
      assert s[0] == s[..i][0];
      assert s[..i] == [s[0]] + s[1..][..i - 1];
      FirstAt(s[1..], x, i - 1);
    }
  }

  lemma ParseOne(m: string)
    requires Separable(m)
    ensures Parse(Write(m)) == Messages([m])
  {
    assert WriteAll([m]) == Write(m) + "";
    ParseExactly(Write(m), [m]);
  }

  lemma FirstFrame(data: string, m: string, rest: string)
    requires Separable(m) && data == Write(m) + rest
    ensures IndexOf(data, RECORD_SEPARATOR) == |m|
    ensures data[..|m| + 1] == Write(m) && data[|m| + 1..] == rest
  {
    assert data[..|m|] == m && data[|m|] == RECORD_SEPARATOR;
    FirstAt(data, RECORD_SEPARATOR, |m|);
  }

  /** A handshake is incomplete exactly when it has no separator yet. */
  lemma HandshakeIncompleteExactly(data: string)
    ensures ParseHandshakeText(data).HandshakeIncomplete? <==> RECORD_SEPARATOR !in data
  {
    var i := IndexOf(data, RECORD_SEPARATOR);
    if i != -1 {
      assert data[..i + 1] == Write(data[..i]);
      ParseOne(data[..i]);
    }
  }

  /** Whatever follows the first frame is kept exactly, and nothing else is taken. */
  lemma HandshakeCuts(m: string, rest: string)
    requires Separable(m)
    ensures ParseHandshakeText(Write(m) + rest) == Response(m, if rest == "" then None else Some(rest))
  {
    FirstFrame(Write(m) + rest, m, rest);
    ParseOne(m);
  }

  /** Messages that arrive with the handshake are parsed as usual from the remainder: exactly those messages. */
  lemma HandshakeThenMessages(m: string, ms: seq<string>)
    requires Separable(m) && AllSeparable(ms)
    ensures var h := ParseHandshakeText(Write(m) + WriteAll(ms));
            && h.Response? && h.text == m
            && (ms == [] <==> h.remaining == None)
            && (ms != [] ==> h.remaining.Some? && Parse(h.remaining.value) == Messages(ms))
  {
    HandshakeCuts(m, WriteAll(ms));
    ParseExactly(WriteAll(ms), ms);
    if ms != [] {
      LastIsSeparator(ms);
    }
  }

  lemma SameIndex(data: seq<byte>)
    ensures IndexOf(data, RECORD_SEPARATOR_CODE as byte) == IndexOf(FromCharCode(data), RECORD_SEPARATOR)
  {
    var i, text := IndexOf(data, RECORD_SEPARATOR_CODE as byte), FromCharCode(data);
    if i != -1 {
      assert forall k :: 0 <= k < i ==> text[..i][k] == data[..i][k] as char;
      FirstAt(text, RECORD_SEPARATOR, i);
    } else {
      assert RECORD_SEPARATOR !in text;
    }
  }

  /** The binary form cuts at the same place as the text form of the same characters. */
  lemma BinaryLikeText(data: seq<byte>)
    ensures var b, t := ParseHandshakeBinary(data), ParseHandshakeText(FromCharCode(data));
            && (b.Response? <==> t.Response?)
            && (b.Response? ==>
                  && b.text == t.text && (b.remaining.Some? <==> t.remaining.Some?)
                  && (b.remaining.Some? ==> FromCharCode(b.remaining.value) == t.remaining.value))
  {
    SameIndex(data);
    var i := IndexOf(data, RECORD_SEPARATOR_CODE as byte);
    if i != -1 {
      assert FromCharCode(data[..i + 1]) == FromCharCode(data)[..i + 1];
      assert FromCharCode(data[i + 1..]) == FromCharCode(data)[i + 1..];
    }
  }
}
