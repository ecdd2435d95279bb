/**
 * The streaming converter (reader.go): a pull-based byte stream that refills
 * its buffer with one JSON-encoded record whenever it runs dry, then drains
 * that buffer from the front.
 *
 * The logfmt tokenizer is replaced by a sequence of already-tokenised lines,
 * and the JSON encoder by a marshal function supplied by the caller.
 */
module Readers {
  import opened Wrappers
  import opened Types
  import Schemas

  newtype byte = x: int | 0 <= x < 256

  /** json.Encoder terminates every encoded value with a newline. */
  const Newline: byte := 10

  datatype Pair = Pair(key: string, value: string)

  /**
   * One logfmt line as the decoder tokenises it: the key/value pairs it scans,
   * then the syntax error that stopped the scan, if any.
   */
  datatype Line = Line(pairs: seq<Pair>, syntaxErr: Option<string>)

  /**
   * The logfmt decoder's cursor: the lines not yet scanned, the error the byte
   * source reports after its last line (None for a clean end of input), and
   * the decoder's own error, which once set is reported by every later scan.
   */
  datatype Decoder = Decoder(lines: seq<Line>, streamErr: Option<string>, err: Option<string>)

  /** The encoder's SetIndent setting; the empty pair is compact output. */
  datatype Indent = Indent(prefix: string, indent: string)

  /** json.Marshal with indentation, as far as the reader depends on it. */
  type Marshal = (Indent, map<string, Value>) -> Result<seq<byte>, string>

  /** The value one key/value pair contributes to its record (reader.go, lines 65-74). */
  function Convert(fields: map<string, Type>, p: Parsers, pair: Pair): (r: Result<Value, Error>)
    ensures pair.key !in fields ==> r == Success(Str(pair.value))
    ensures pair.key in fields && r.Success? ==> r.value.Is(fields[pair.key])
    ensures r.Failure? ==> pair.key in fields && r.error.KeyError? && r.error.key == pair.key
  {
    if pair.key in fields then
      match ParseValue(p, fields[pair.key], pair.value)
      case Success(v) => Success(v)
      case Failure(e) => Failure(KeyError(pair.key, e))
    else Success(Str(pair.value))
  }

  /** The reader's map lookup behaves as Schema.Parse, with the error tagged by the key. */
  lemma ConvertIsSchemaParse(s: Schemas.Schema, p: Parsers, pair: Pair)
    ensures Convert(s.fields, p, pair) ==
      match s.Parse(p, pair.key, pair.value)
      case Success(v) => Success(v)
      case Failure(e) => Failure(KeyError(pair.key, e))
  {
  }

  /** The map the decodeMap loop builds from a line's pairs, or the first field error. */
  function DecodeFields(fields: map<string, Type>, p: Parsers, pairs: seq<Pair>): Result<map<string, Value>, Error>
  {
    if pairs == [] then Success(map[])
    else
      var last := pairs[|pairs| - 1];
      match DecodeFields(fields, p, pairs[..|pairs| - 1])
      case Failure(e) => Failure(e)
      case Success(m) =>
        match Convert(fields, p, last)
        case Failure(e) => Failure(e)
        case Success(v) => Success(m[last.key := v])
  }

  /** Pair j is the first whose value fails to convert. */
  ghost predicate FirstFailure(fields: map<string, Type>, p: Parsers, pairs: seq<Pair>, j: int) {
    && 0 <= j < |pairs|
    && Convert(fields, p, pairs[j]).Failure?
    && forall i | 0 <= i < j :: Convert(fields, p, pairs[i]).Success?
  }

  /**
   * All or nothing: a record decodes iff every pair converts, and otherwise
   * fails with the error of the first pair that does not.
   */
  lemma {:induction false} DecodeFieldsFailure(fields: map<string, Type>, p: Parsers, pairs: seq<Pair>)
    ensures DecodeFields(fields, p, pairs).Success? <==> forall i | 0 <= i < |pairs| :: Convert(fields, p, pairs[i]).Success?
    ensures DecodeFields(fields, p, pairs).Failure? ==>
      exists j :: FirstFailure(fields, p, pairs, j) && DecodeFields(fields, p, pairs).error == Convert(fields, p, pairs[j]).error
  {
    if pairs != [] {
      var n := |pairs| - 1;
      var init := pairs[..n];
      DecodeFieldsFailure(fields, p, init);
      assert forall i | 0 <= i < n :: init[i] == pairs[i];
      if DecodeFields(fields, p, init).Failure? {
        var j :| FirstFailure(fields, p, init, j) && DecodeFields(fields, p, init).error == Convert(fields, p, init[j]).error;
        assert FirstFailure(fields, p, pairs, j);
      } else if Convert(fields, p, pairs[n]).Failure? {
        assert FirstFailure(fields, p, pairs, n);
      }
    }
  }

  /**
   * A decoded record holds exactly the keys of its pairs, each with the value
   * of its last pair: undeclared keys keep their raw text, a later duplicate
   * overwrites an earlier one.
   */
  lemma {:induction false} DecodeFieldsLastWins(fields: map<string, Type>, p: Parsers, pairs: seq<Pair>, k: string, j: int)
    requires DecodeFields(fields, p, pairs).Success?
    ensures k in DecodeFields(fields, p, pairs).value <==> exists i :: 0 <= i < |pairs| && pairs[i].key == k
    ensures 0 <= j < |pairs| && pairs[j].key == k && (forall l | j < l < |pairs| :: pairs[l].key != k) ==>
      k in DecodeFields(fields, p, pairs).value &&
      Success(DecodeFields(fields, p, pairs).value[k]) == Convert(fields, p, pairs[j])
  {
    if pairs != [] {
      var n := |pairs| - 1;
      var init := pairs[..n];
      assert DecodeFields(fields, p, init).Success?;
      DecodeFieldsLastWins(fields, p, init, k, j);
      assert forall i | 0 <= i < n :: init[i] == pairs[i];
      if exists i :: 0 <= i < |pairs| && pairs[i].key == k {
        var i :| 0 <= i < |pairs| && pairs[i].key == k;
        if i < n {
          assert init[i].key == k;
        }
      }
    }
  }

  /** Once a prefix of the pairs fails, the whole line fails with that error: later pairs are never looked at. */
  lemma {:induction false} DecodeFieldsStopsAtFailure(fields: map<string, Type>, p: Parsers, pairs: seq<Pair>, i: nat)
    requires i <= |pairs| && DecodeFields(fields, p, pairs[..i]).Failure?
    ensures DecodeFields(fields, p, pairs) == DecodeFields(fields, p, pairs[..i])
    decreases |pairs| - i
  {
    if i == |pairs| {
      assert pairs[..i] == pairs;
    } else {
      var n := |pairs| - 1;
      assert pairs[..n][..i] == pairs[..i];
      DecodeFieldsStopsAtFailure(fields, p, pairs[..n], i);
    }
  }

  /** A line without pairs decodes to the empty map. */
  lemma EmptyLineDecodesEmpty(fields: map<string, Type>, p: Parsers)
    ensures DecodeFields(fields, p, []) == Success(map[])
  {
  }

  /** What decodeMap yields, and the decoder it leaves behind. */
  datatype Decoded = Decoded(result: Result<map<string, Value>, Error>, rest: Decoder)

  /** decodeMap as a function of the decoder (reader.go, lines 56-77). */
  function NextRecord(d: Decoder, fields: map<string, Type>, p: Parsers): (r: Decoded)
    ensures r.rest.streamErr == d.streamErr
    ensures r.rest.lines == d.lines || (d.lines != [] && r.rest.lines == d.lines[1..])
    ensures r.result.Success? ==> d.lines != [] && r.rest.lines == d.lines[1..] && r.rest.err.None?
    ensures d.err.None? && d.lines == [] ==> r.result == Failure(if d.streamErr.None? then EOF else DecodeError(d.streamErr.value))
    ensures d.err.Some? ==> r.result == Failure(DecodeError(d.err.value)) && r.rest == d
    ensures d.err.None? && d.lines == [] ==> r.rest == d
    ensures d.err.None? && d.lines != [] && DecodeFields(fields, p, d.lines[0].pairs).Failure? ==>
      r.rest == d.(lines := d.lines[1..])
    ensures d.err.None? && d.lines != [] && DecodeFields(fields, p, d.lines[0].pairs).Success? ==>
      r.rest == d.(lines := d.lines[1..], err := d.lines[0].syntaxErr)
    ensures d.err.None? && d.lines != [] && DecodeFields(fields, p, d.lines[0].pairs).Failure? ==>
      r.result == DecodeFields(fields, p, d.lines[0].pairs)
    ensures d.err.None? && d.lines != [] && DecodeFields(fields, p, d.lines[0].pairs).Success? ==>
      && (r.result.Success? <==> d.lines[0].syntaxErr.None?)
      && (r.result.Success? ==> r.result.value == DecodeFields(fields, p, d.lines[0].pairs).value)
      && (r.result.Failure? ==> r.result.error == DecodeError(d.lines[0].syntaxErr.value) && r.rest.err == d.lines[0].syntaxErr)
  {
    if d.err.Some? then Decoded(Failure(DecodeError(d.err.value)), d)
    else if d.lines == [] then
      Decoded(Failure(if d.streamErr.None? then EOF else DecodeError(d.streamErr.value)), d)
    else
      var line := d.lines[0];
      var rest := d.(lines := d.lines[1..]);
      match DecodeFields(fields, p, line.pairs)
      case Failure(e) => Decoded(Failure(e), rest)
      case Success(m) =>
        if line.syntaxErr.Some? then
          Decoded(Failure(DecodeError(line.syntaxErr.value)), rest.(err := line.syntaxErr))
        else Decoded(Success(m), rest)
  }

  /**
   * What decodeMap returns for a record: it succeeds exactly when the line has
   * no syntax error and every pair converts; its map holds exactly the pairs'
   * keys, each with its last pair's converted value; a field failure is the
   * error of the first pair that does not convert.
   */
  lemma {:induction false} NextRecordContents(d: Decoder, fields: map<string, Type>, p: Parsers, k: string, j: int)
    requires d.err.None? && d.lines != []
    ensures var r := NextRecord(d, fields, p).result;
      r.Success? <==> d.lines[0].syntaxErr.None? && forall i | 0 <= i < |d.lines[0].pairs| :: Convert(fields, p, d.lines[0].pairs[i]).Success?
    ensures var r := NextRecord(d, fields, p).result;
      r.Success? ==> (k in r.value <==> exists i :: 0 <= i < |d.lines[0].pairs| && d.lines[0].pairs[i].key == k)
    ensures var r := NextRecord(d, fields, p).result; var pairs := d.lines[0].pairs;
      r.Success? && 0 <= j < |pairs| && pairs[j].key == k && (forall l | j < l < |pairs| :: pairs[l].key != k) ==>
        k in r.value && Success(r.value[k]) == Convert(fields, p, pairs[j])
    ensures var r := NextRecord(d, fields, p).result; var pairs := d.lines[0].pairs;
      (exists i :: 0 <= i < |pairs| && Convert(fields, p, pairs[i]).Failure?) ==>
        exists i :: FirstFailure(fields, p, pairs, i) && r == Failure(Convert(fields, p, pairs[i]).error)
  {
    var pairs := d.lines[0].pairs;
    DecodeFieldsFailure(fields, p, pairs);
    if DecodeFields(fields, p, pairs).Success? {
      DecodeFieldsLastWins(fields, p, pairs, k, j);
    }
  }

  /** The bytes a refill puts in the buffer, and the decoder it leaves behind. */
  datatype Produced = Produced(result: Result<seq<byte>, Error>, rest: Decoder)

  /** The framing of one encoded record: non-empty and ending in a newline. */
  predicate Framed(bytes: seq<byte>) {
    |bytes| > 0 && bytes[|bytes| - 1] == Newline
  }

  /** Decoding and encoding the next record, the refill step of Read (reader.go, lines 42-50). */
  function Refill(d: Decoder, fields: map<string, Type>, p: Parsers, marshal: Marshal, indent: Indent): (r: Produced)
    ensures r.result.Success? ==> Framed(r.result.value)
    ensures r.rest == NextRecord(d, fields, p).rest
    ensures NextRecord(d, fields, p).result.Failure? ==> r.result == Failure(NextRecord(d, fields, p).result.error)
    ensures NextRecord(d, fields, p).result.Success? ==>
      r.result == match marshal(indent, NextRecord(d, fields, p).result.value)
        case Success(b) => Success(b + [Newline])
        case Failure(msg) => Failure(EncodeError(msg))
  {
    var next := NextRecord(d, fields, p);
    match next.result
    case Failure(e) => Produced(Failure(e), next.rest)
    case Success(m) =>
      match marshal(indent, m)
      case Failure(msg) => Produced(Failure(EncodeError(msg)), next.rest)
      case Success(bytes) => Produced(Success(bytes + [Newline]), next.rest)
  }

  /** A record with a field that fails to parse adds nothing and moves past that record. */
  lemma {:induction false} BadFieldDropsRecord(d: Decoder, fields: map<string, Type>, p: Parsers, marshal: Marshal, indent: Indent, j: int)
    requires d.err.None? && d.lines != []
    requires 0 <= j < |d.lines[0].pairs| && Convert(fields, p, d.lines[0].pairs[j]).Failure?
    ensures Refill(d, fields, p, marshal, indent).result.Failure?
    ensures Refill(d, fields, p, marshal, indent).result.error.KeyError?
    ensures Refill(d, fields, p, marshal, indent).rest == d.(lines := d.lines[1..])
  {
    DecodeFieldsFailure(fields, p, d.lines[0].pairs);
  }

  /** A clean line with no pairs is still encoded, as the empty object. */
  lemma EmptyRecordIsEncoded(d: Decoder, fields: map<string, Type>, p: Parsers, marshal: Marshal, indent: Indent)
    requires d.err.None? && d.lines != [] && d.lines[0] == Line([], None)
    requires marshal(indent, map[]).Success?
    ensures Refill(d, fields, p, marshal, indent) == Produced(Success(marshal(indent, map[]).value + [Newline]), d.(lines := d.lines[1..]))
  {
  }

  /** A syntax error after the pairs fails this refill and every later one, with the same error. */
  lemma {:induction false} SyntaxErrorIsSticky(d: Decoder, fields: map<string, Type>, p: Parsers, marshal: Marshal, indent: Indent, later: Indent)
    requires d.err.None? && d.lines != [] && d.lines[0].syntaxErr.Some?
    requires DecodeFields(fields, p, d.lines[0].pairs).Success?
    ensures var r := Refill(d, fields, p, marshal, indent);
      && r.result.Failure?
      && Refill(r.rest, fields, p, marshal, later).result == r.result
      && Refill(r.rest, fields, p, marshal, later).rest == r.rest
  {
  }

  /** The concatenation of a sequence of encoded records. */
  function Concat(chunks: seq<seq<byte>>): seq<byte> {
    if chunks == [] then [] else Concat(chunks[..|chunks| - 1]) + chunks[|chunks| - 1]
  }

  function Min(a: int, b: int): int {
    if a < b then a else b
  }

  /** Converts logfmt data to JSON. */
  class Reader {
    var buf: seq<byte>
    var dec: Decoder
    var indent: Indent
    const strict: bool
    const fields: map<string, Type>
    const parsers: Parsers
    const marshal: Marshal

    /** The input lines the reader was created over, those scanned so far, and what Read has returned. */
    ghost const source: seq<Line>
    ghost var scanned: seq<Line>
    ghost var delivered: seq<byte>
    /** The encodings of the records consumed so far, in input order. */
    ghost var encoded: seq<seq<byte>>

    /**
     * Byte conservation: what Read has returned, followed by what is still
     * buffered, is exactly the encodings of the records consumed so far.
     */
    ghost predicate Valid()
      reads this
    {
      && delivered + buf == Concat(encoded)
      && (forall i | 0 <= i < |encoded| :: Framed(encoded[i]))
      && scanned + dec.lines == source
    }

    /** NewReader: an empty buffer, compact output, and a copy of the schema. */
    constructor (lines: seq<Line>, streamErr: Option<string>, schema: Schemas.Schema, parsers: Parsers, marshal: Marshal)
      ensures Valid()
      ensures buf == [] && dec == Decoder(lines, streamErr, None) && indent == Indent("", "")
      ensures strict == schema.strict && fields == schema.fields
      ensures this.parsers == parsers && this.marshal == marshal
      ensures source == lines && delivered == [] && encoded == []
    {
      buf := [];
      dec := Decoder(lines, streamErr, None);
      indent := Indent("", "");
      strict := schema.strict;
      fields := schema.fields;
      this.parsers := parsers;
      this.marshal := marshal;
      source := lines;
      scanned := [];
      delivered := [];
      encoded := [];
    }

    /** Sets the encoder's indentation; it applies from the next record encoded on. */
    method SetIndent(prefix: string, ind: string)
      requires Valid()
      modifies this`indent
      ensures Valid()
      ensures indent == Indent(prefix, ind)
    {
      indent := Indent(prefix, ind);
    }

    /** Reads the next record's pairs into a map through the schema. */
    method DecodeMap() returns (m: map<string, Value>, err: Option<Error>)
      requires Valid()
      modifies this`dec, this`scanned
      ensures Valid()
      ensures var next := NextRecord(old(dec), fields, parsers);
        && dec == next.rest
        && (err.None? <==> next.result.Success?)
        && (err.None? ==> m == next.result.value)
        && (err.Some? ==> err.value == next.result.error)
    {
      if dec.err.Some? {
        return map[], Some(DecodeError(dec.err.value));
      }
      if dec.lines == [] {
        err := Some(if dec.streamErr.None? then EOF else DecodeError(dec.streamErr.value));
        return map[], err;
      }
      var line := dec.lines[0];
      dec := dec.(lines := dec.lines[1..]);
      scanned := scanned + [line];
      m := map[];
      var i := 0;
      while i < |line.pairs|
        invariant 0 <= i <= |line.pairs|
        invariant DecodeFields(fields, parsers, line.pairs[..i]) == Success(m)
      {
        var key, val := line.pairs[i].key, line.pairs[i].value;
        assert line.pairs[..i + 1][..i] == line.pairs[..i];
        if key in fields {
          var v := ParseValue(parsers, fields[key], val);
          if v.Failure? {
            DecodeFieldsStopsAtFailure(fields, parsers, line.pairs, i + 1);
            return map[], Some(KeyError(key, v.error));
          }
          m := m[key := v.value];
        } else {
          m := m[key := Str(val)];
        }
        i := i + 1;
      }
      assert line.pairs[..i] == line.pairs;
      if line.syntaxErr.Some? {
        dec := dec.(err := line.syntaxErr);
        return m, Some(DecodeError(line.syntaxErr.value));
      }
      err := None;
    }

    /**
     * io.Reader: with bytes buffered, hands out as many as fit in data without
     * touching the source; with none, first refills the buffer with exactly one
     * encoded record, or reports why it could not.
     */
    method Read(data: array<byte>) returns (n: nat, err: Option<Error>)
      requires Valid()
      modifies this`buf, this`dec, this`scanned, this`delivered, this`encoded, data
      ensures Valid()
      ensures n <= data.Length
      ensures delivered == old(delivered) + data[..n]
      ensures old(buf) != [] ==>
        && dec == old(dec) && encoded == old(encoded) && err.None?
        && n == Min(data.Length, |old(buf)|)
        && data[..n] == old(buf)[..n] && data[n..] == old(data[n..])
        && buf == old(buf)[n..]
      ensures old(buf) == [] ==>
        var r := Refill(old(dec), fields, parsers, marshal, indent);
        && dec == r.rest
        && (r.result.Failure? ==>
              n == 0 && err == Some(r.result.error) && buf == [] && encoded == old(encoded) && data[..] == old(data[..]))
        && (r.result.Success? ==>
              && err.None? && encoded == old(encoded) + [r.result.value]
              && n == Min(data.Length, |r.result.value|)
              && data[..n] == r.result.value[..n] && data[n..] == old(data[n..])
              && buf == r.result.value[n..])
    {
      if |buf| == 0 {
        var m, e := DecodeMap();
        if e.Some? {
          return 0, e;
        }
        var out := marshal(indent, m);
        if out.Failure? {
          return 0, Some(EncodeError(out.error));
        }
        buf := out.value + [Newline];
        assert (encoded + [buf])[..|encoded|] == encoded;
        encoded := encoded + [buf];
      }
      n := Drain(data);
      err := None;
    }

    /** bytes.Buffer.Read: moves as many buffered bytes as fit from the front of the buffer into data. */
    method Drain(data: array<byte>) returns (n: nat)
      requires Valid()
      modifies this`buf, this`delivered, data
      ensures Valid()
      ensures n == Min(data.Length, |old(buf)|)
      ensures data[..n] == old(buf)[..n] && data[n..] == old(data[n..])
      ensures buf == old(buf)[n..] && delivered == old(delivered) + data[..n]
    {
      n := Min(data.Length, |buf|);
      forall i | 0 <= i < n {
        data[i] := buf[i];
      }
      assert buf[..n] + buf[n..] == buf;
      delivered := delivered + buf[..n];
      buf := buf[n..];
    }
  }
}
