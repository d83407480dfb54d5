/**
 * The binary container lt-print reads: an optional header (a four-byte
 * marker and a little-endian 64-bit feature word), then a counted list of
 * letter codes, the alphabet, and a counted list of named transducers.
 *
 * The encodings of integers, strings, the alphabet and the transducers are
 * declared in headers outside this model, so they enter as decoders: each
 * takes what remains of the stream and yields a value and what remains
 * after it, or fails on a stream it cannot decode.
 */
module Container {
  import opened Results
  import opened Bytes
  import opened UStrings
  import opened SortedTable

  /** A value read from the stream, and the stream after it. */
  datatype Decoded<X> = Decoded(value: X, rest: seq<byte>)

  type Decoder<X> = seq<byte> -> Option<Decoded<X>>

  /** The readers `main` calls but whose layouts are not part of this model. */
  datatype Codecs<A, T> = Codecs(
    multibyteRead: Decoder<u32>,     // Compression::multibyte_read
    stringRead: Decoder<UString>,    // Compression::string_read
    alphabetRead: Decoder<A>,        // Alphabet::read
    transducerRead: Decoder<T>)      // Transducer::read

  /** HEADER_LTTOOLBOX, as the four bytes strncmp looks at. */
  type Marker = s: seq<byte> | |s| == 4 witness [0, 0, 0, 0]

  /** The two constants the header check depends on: the marker and
      LTF_UNKNOWN, the smallest feature word this version does not know. */
  datatype Format = Format(marker: Marker, unknownFeatures: nat)

  datatype Layout = Legacy | Versioned(features: nat)

  /** How the file starts, and the offset its body starts at. */
  datatype Header = Header(layout: Layout, bodyStart: nat)

  datatype Section = FeatureWord | Letters | Symbols | Transducers

  datatype ReadError =
    | UnknownFeatures(features: nat)   // the feature word names a feature this version does not know
    | Truncated(section: Section)      // a reader could not decode that section

  /** What `main` decodes: the letter set, the alphabet and the table of
      transducers by name. */
  datatype Artifact<A, T> = Artifact(letters: set<u16>, alphabet: A, transducers: seq<Entry<T>>)

  // ---------------------------------------------------------------------
  // Specification of the reading

  /** The zero-initialised four-byte buffer after fread of at most four bytes. */
  function Peek4(input: seq<byte>): (h: seq<byte>)
    ensures |h| == 4
    ensures |input| >= 4 ==> h == input[..4]
    ensures forall i :: |input| <= i < 4 ==> h[i] == 0
  {
    if |input| >= 4 then input[..4] else input + seq(4 - |input|, _ => 0 as byte)
  }

  /** The header step: peek, and either take the feature word and pass the
      gate, or go back to the start of the file. `positionKnown` is whether
      fgetpos succeeded; without it there is no peek at all. */
  function ReadHeader(fmt: Format, positionKnown: bool, input: seq<byte>): (r: Result<Header, ReadError>)
    ensures r.Ok? ==> r.value.bodyStart <= |input|
  {
    if !positionKnown || !StrnEqual(Peek4(input), fmt.marker, 4) then Ok(Header(Legacy, 0))
    else if |input| < 12 then Err(Truncated(FeatureWord))
    else
      var features := LittleEndian(input[4..12]);
      if features >= fmt.unknownFeatures then Err(UnknownFeatures(features))
      else Ok(Header(Versioned(features), 12))
  }

  function Max0(n: int): nat
  {
    if n > 0 then n else 0
  }

  /** `int len = ...`: the unsigned 32-bit count as the signed int it is
      stored in. */
  function ToCInt(u: u32): (n: int)
    ensures -0x8000_0000 <= n < 0x8000_0000
    ensures n == u as int || n == u as int - 0x1_0000_0000
    ensures n > 0 <==> 0 < u < 0x8000_0000
  {
    if u < 0x8000_0000 then u as int else u as int - 0x1_0000_0000
  }

  /** A letter code stored into `set<UChar>`: its low 16 bits. */
  function Truncate16(u: u32): u16
  {
    (u as int % 0x1_0000) as u16
  }

  function Codes(vs: seq<u32>): set<u16>
  {
    if vs == [] then {} else Codes(vs[..|vs| - 1]) + {Truncate16(vs[|vs| - 1])}
  }

  /** `while(len > 0) { ...; len--; }`: `count` values read one after the
      other, none when the count is zero or negative. */
  function ReadCounted<X>(dec: Decoder<X>, s: seq<byte>, count: int): (r: Option<Decoded<seq<X>>>)
    ensures r.Some? ==> |r.value.value| == Max0(count)
    decreases Max0(count)
  {
    if count <= 0 then Some(Decoded([], s))
    else
      match dec(s)
      case None => None
      case Some(d) =>
        match ReadCounted(dec, d.rest, count - 1)
        case None => None
        case Some(ds) => Some(Decoded([d.value] + ds.value, ds.rest))
  }

  /** A count, then that many values. */
  function Counted<X>(readInt: Decoder<u32>, dec: Decoder<X>, s: seq<byte>): Option<Decoded<seq<X>>>
  {
    match readInt(s)
    case None => None
    case Some(n) => ReadCounted(dec, n.rest, ToCInt(n.value))
  }

  /** One entry of the transducer section: a name, then its transducer. */
  function EntryAt<A, T>(c: Codecs<A, T>, s: seq<byte>): Option<Decoded<Entry<T>>>
  {
    match c.stringRead(s)
    case None => None
    case Some(n) =>
      match c.transducerRead(n.rest)
      case None => None
      case Some(t) => Some(Decoded(Entry(n.value, t.value), t.rest))
  }

  function EntryReader<A, T>(c: Codecs<A, T>): Decoder<Entry<T>>
  {
    s => EntryAt(c, s)
  }

  /** The letter section: its codes go into the set. */
  function LetterSection<A, T>(c: Codecs<A, T>, s: seq<byte>): Option<Decoded<set<u16>>>
  {
    Lettered(Counted(c.multibyteRead, c.multibyteRead, s))
  }

  /** The set the codes read are inserted into. */
  function Lettered(r: Option<Decoded<seq<u32>>>): Option<Decoded<set<u16>>>
  {
    match r
    case None => None
    case Some(vs) => Some(Decoded(Codes(vs.value), vs.rest))
  }

  /** The map the pairs read fill, one after the other. */
  function Filled<T>(r: Option<Decoded<seq<Entry<T>>>>): Option<Decoded<seq<Entry<T>>>>
  {
    match r
    case None => None
    case Some(ps) => Some(Decoded(InsertAll([], ps.value), ps.rest))
  }

  /** The transducer section: its entries go into the name-keyed map. */
  function TransducerSection<A, T>(c: Codecs<A, T>, s: seq<byte>): Option<Decoded<seq<Entry<T>>>>
  {
    Filled(Counted(c.multibyteRead, EntryReader(c), s))
  }

  /** Everything after the header. */
  function DecodeBody<A, T>(c: Codecs<A, T>, body: seq<byte>): Result<Artifact<A, T>, ReadError>
  {
    match LetterSection(c, body)
    case None => Err(Truncated(Letters))
    case Some(l) =>
      match c.alphabetRead(l.rest)
      case None => Err(Truncated(Symbols))
      case Some(a) =>
        match TransducerSection(c, a.rest)
        case None => Err(Truncated(Transducers))
        case Some(ts) => Ok(Artifact(l.value, a.value, ts.value))
  }

  /** The whole file: the header decides where the body starts. */
  function Decode<A, T>(c: Codecs<A, T>, fmt: Format, positionKnown: bool, input: seq<byte>): Result<Artifact<A, T>, ReadError>
  {
    match ReadHeader(fmt, positionKnown, input)
    case Err(e) => Err(e)
    case Ok(h) => DecodeBody(c, input[h.bodyStart..])
  }

  // ---------------------------------------------------------------------
  // Properties of the format

  lemma {:induction false} StrnEqualReflexive(a: seq<byte>, n: nat)
    requires n <= |a|
    ensures StrnEqual(a, a, n)
  {
    if n > 0 && a[0] != 0 {
      StrnEqualReflexive(a[1..], n - 1);
    }
  }

  /** With no NUL in the marker, the strncmp on the zero-filled buffer
      accepts exactly the files whose first four bytes are the marker. */
  lemma MarkerSeen(fmt: Format, input: seq<byte>)
    requires forall i :: 0 <= i < 4 ==> fmt.marker[i] != 0
    ensures StrnEqual(Peek4(input), fmt.marker, 4) <==> |input| >= 4 && input[..4] == fmt.marker
  {
    StrnEqualWithoutNul(Peek4(input), fmt.marker, 4);
    assert Peek4(input)[..4] == Peek4(input);
    assert fmt.marker[..4] == fmt.marker;
    if |input| < 4 {
      assert Peek4(input)[|input|] != fmt.marker[|input|];
    }
  }

  /** A file written with the header: the feature word is taken from bytes
      4 to 12, and either it names an unknown feature or the body after it
      is decoded. This holds whatever bytes the marker has. */
  lemma HeaderedFile<A, T>(c: Codecs<A, T>, fmt: Format, features: nat, body: seq<byte>)
    requires features < Pow256(8)
    ensures Decode(c, fmt, true, fmt.marker + EncodeLE(features, 8) + body)
         == if features >= fmt.unknownFeatures then Err(UnknownFeatures(features)) else DecodeBody(c, body)
  {
    var input := fmt.marker + EncodeLE(features, 8) + body;
    assert Peek4(input) == fmt.marker by {
      assert input[..4] == fmt.marker;
    }
    StrnEqualReflexive(fmt.marker, 4);
    assert input[4..12] == EncodeLE(features, 8);
    DecodeEncode(features, 8);
    assert input[12..] == body;
  }

  /** A file written without the header (and whose body does not itself
      start with the marker) is decoded from its first byte. */
  lemma LegacyFile<A, T>(c: Codecs<A, T>, fmt: Format, positionKnown: bool, body: seq<byte>)
    requires forall i :: 0 <= i < 4 ==> fmt.marker[i] != 0
    requires !(|body| >= 4 && body[..4] == fmt.marker)
    ensures Decode(c, fmt, positionKnown, body) == DecodeBody(c, body)
  {
    MarkerSeen(fmt, body);
    assert body[0..] == body;
  }

  /** Both layouts of the same body, with a feature word this version
      knows, decode to the same thing. */
  lemma EitherLayout<A, T>(c: Codecs<A, T>, fmt: Format, features: nat, body: seq<byte>)
    requires forall i :: 0 <= i < 4 ==> fmt.marker[i] != 0
    requires !(|body| >= 4 && body[..4] == fmt.marker)
    requires features < Pow256(8) && features < fmt.unknownFeatures
    ensures Decode(c, fmt, true, fmt.marker + EncodeLE(features, 8) + body) == Decode(c, fmt, true, body)
  {
    HeaderedFile(c, fmt, features, body);
    LegacyFile(c, fmt, true, body);
  }

  /** A count word of 2^31 or more is a negative `int`: the loop reads
      nothing. */
  lemma NegativeCount<X>(readInt: Decoder<u32>, dec: Decoder<X>, s: seq<byte>)
    requires readInt(s).Some? && readInt(s).value.value >= 0x8000_0000
    ensures Counted(readInt, dec, s) == Some(Decoded([], readInt(s).value.rest))
  {
  }

  /** The table the transducer section builds: ordered by name, one entry
      per distinct name, each name holding the transducer read for it
      last. */
  lemma TransducerTable<A, T>(c: Codecs<A, T>, s: seq<byte>)
    requires Counted(c.multibyteRead, EntryReader(c), s).Some?
    ensures var ps := Counted(c.multibyteRead, EntryReader(c), s).value.value;
      var table := TransducerSection(c, s).value.value;
      && Ascending(table)
      && ToMap(table) == Overlay(map[], ps)
      && Names(table) == Names(ps)
      && |table| == |ToMap(table)|
  {
    var ps := Counted(c.multibyteRead, EntryReader(c), s).value.value;
    var table := InsertAll([], ps);
    OverlayKeys(map[], ps);
    OneEntryPerName(table);
  }

  // ---------------------------------------------------------------------
  // The reading as `main` does it, along the stream

  /** The values `vs` in front of what `r` read. */
  function Prepend<X>(vs: seq<X>, r: Option<Decoded<seq<X>>>): Option<Decoded<seq<X>>>
  {
    match r
    case None => None
    case Some(d) => Some(Decoded(vs + d.value, d.rest))
  }

  lemma PrependNothing<X>(r: Option<Decoded<seq<X>>>)
    ensures Prepend([], r) == r
  {
    if r.Some? {
      assert [] + r.value.value == r.value.value;
    }
  }

  /** One turn of a counted loop: the value read joins those already seen. */
  lemma CountedLoopStep<X>(dec: Decoder<X>, s: seq<byte>, len: int, seen: seq<X>)
    requires len > 0 && dec(s).Some?
    ensures Prepend(seen, ReadCounted(dec, s, len))
         == Prepend(seen + [dec(s).value.value], ReadCounted(dec, dec(s).value.rest, len - 1))
  {
    var after := ReadCounted(dec, dec(s).value.rest, len - 1);
    if after.Some? {
      assert seen + ([dec(s).value.value] + after.value.value) == (seen + [dec(s).value.value]) + after.value.value;
    }
  }

  /** One turn of the transducer loop: the entry read joins those already
      seen. */
  lemma EntryLoopStep<A, T>(c: Codecs<A, T>, s: seq<byte>, len: int, seen: seq<Entry<T>>, e: Entry<T>, after: seq<byte>)
    requires len > 0 && EntryReader(c)(s) == Some(Decoded(e, after))
    ensures Prepend(seen, ReadCounted(EntryReader(c), s, len)) == Prepend(seen + [e], ReadCounted(EntryReader(c), after, len - 1))
  {
    CountedLoopStep(EntryReader(c), s, len, seen);
  }

  /** A transducer loop whose name or transducer cannot be read fails. */
  lemma EntryLoopFails<A, T>(c: Codecs<A, T>, s: seq<byte>, len: int)
    requires len > 0
    requires c.stringRead(s).None? || c.transducerRead(c.stringRead(s).value.rest).None?
    ensures ReadCounted(EntryReader(c), s, len) == None
  {
    assert EntryReader(c)(s) == None;
  }

  lemma CodesSnoc(vs: seq<u32>, v: u32)
    ensures Codes(vs + [v]) == Codes(vs) + {Truncate16(v)}
  {
    assert (vs + [v])[..|vs|] == vs;
  }

  /** The letter section: the count, then the loop. */
  method ReadLetters<A, T>(c: Codecs<A, T>, stream: seq<byte>) returns (r: Option<Decoded<set<u16>>>)
    ensures r == LetterSection(c, stream)
  {
    var first := c.multibyteRead(stream);
    if first.None? {
      return None;
    }
    r := LetterLoop(c, first.value.rest, ToCInt(first.value.value));
  }

  /** The letter loop: `len` codes, each inserted into the set. */
  method LetterLoop<A, T>(c: Codecs<A, T>, stream: seq<byte>, count: int) returns (r: Option<Decoded<set<u16>>>)
    ensures r == Lettered(ReadCounted(c.multibyteRead, stream, count))
  {
    var len, input := count, stream;
    var alphabeticChars: set<u16> := {};
    ghost var seen: seq<u32> := [];
    ghost var whole := ReadCounted(c.multibyteRead, input, len);
    PrependNothing(whole);
    while len > 0
      invariant alphabeticChars == Codes(seen)
      invariant whole == Prepend(seen, ReadCounted(c.multibyteRead, input, len))
      decreases len
    {
      var code := c.multibyteRead(input);
      if code.None? {
        return None;
      }
      CountedLoopStep(c.multibyteRead, input, len, seen);
      CodesSnoc(seen, code.value.value);
      alphabeticChars := alphabeticChars + {Truncate16(code.value.value)};
      seen := seen + [code.value.value];
      input := code.value.rest;
      len := len - 1;
    }
    assert seen + [] == seen;
    r := Some(Decoded(alphabeticChars, input));
  }

  /** `transducers[name].read(input)` once the transducer has been read:
      the table filled with the pairs seen so far gains one more. */
  method Store<T>(transducers: seq<Entry<T>>, ghost seen: seq<Entry<T>>, e: Entry<T>) returns (r: seq<Entry<T>>)
    requires transducers == InsertAll([], seen)
    ensures r == InsertAll([], seen + [e])
  {
    InsertAllSnoc([], seen, e);
    r := Insert(transducers, e.name, e.value);
  }

  /** The transducer section: the count, then the loop. */
  method ReadTransducers<A, T>(c: Codecs<A, T>, stream: seq<byte>) returns (r: Option<Decoded<seq<Entry<T>>>>)
    ensures r == TransducerSection(c, stream)
  {
    var first := c.multibyteRead(stream);
    if first.None? {
      return None;
    }
    r := TransducerLoop(c, first.value.rest, ToCInt(first.value.value));
  }

  /** The transducer loop: `len` entries, each name and its transducer
      going into the map under that name. */
  method TransducerLoop<A, T>(c: Codecs<A, T>, stream: seq<byte>, count: int) returns (r: Option<Decoded<seq<Entry<T>>>>)
    ensures r == Filled(ReadCounted(EntryReader(c), stream, count))
  {
    var len, input := count, stream;
    var transducers: seq<Entry<T>> := [];
    ghost var seen: seq<Entry<T>> := [];
    ghost var reader := EntryReader(c);
    ghost var whole := ReadCounted(reader, input, len);
    PrependNothing(whole);
    while len > 0
      invariant transducers == InsertAll([], seen)
      invariant whole == Prepend(seen, ReadCounted(reader, input, len))
      decreases len
    {
      var name := c.stringRead(input);
      if name.None? {
        EntryLoopFails(c, input, len);
        return None;
      }
      var t := c.transducerRead(name.value.rest);
      if t.None? {
        EntryLoopFails(c, input, len);
        return None;
      }
      var e := Entry(name.value.value, t.value.value);
      assert reader(input) == Some(Decoded(e, t.value.rest));
      EntryLoopStep(c, input, len, seen, e, t.value.rest);
      transducers := Store(transducers, seen, e);
      seen := seen + [e];
      input := t.value.rest;
      len := len - 1;
    }
    assert seen + [] == seen;
    r := Some(Decoded(transducers, input));
  }

  /** fgetpos, the peek, then either the feature word and its gate or
      fsetpos back to the start. */
  method SkipHeader(fmt: Format, positionKnown: bool, input: seq<byte>) returns (r: Result<Header, ReadError>)
    ensures r == ReadHeader(fmt, positionKnown, input)
  {
    var pos: nat := 0;
    if positionKnown {
      var saved := pos;
      var header := Peek4(input);
      pos := if |input| < 4 then |input| else 4;
      if StrnEqual(header, fmt.marker, 4) {
        if |input| - pos < 8 {
          return Err(Truncated(FeatureWord));
        }
        var features := LittleEndian(input[pos..pos + 8]);
        pos := pos + 8;
        if features >= fmt.unknownFeatures {
          return Err(UnknownFeatures(features));
        }
        return Ok(Header(Versioned(features), pos));
      }
      pos := saved;   // old binary format: back to where the peek started
    }
    r := Ok(Header(Legacy, pos));
  }

  /** `main` from fgetpos to the end of the transducer loop. */
  method ReadArtifact<A, T>(c: Codecs<A, T>, fmt: Format, positionKnown: bool, input: seq<byte>)
    returns (r: Result<Artifact<A, T>, ReadError>)
    ensures r == Decode(c, fmt, positionKnown, input)
  {
    var header := SkipHeader(fmt, positionKnown, input);
    if header.Err? {
      return Err(header.error);
    }
    var stream := input[header.value.bodyStart..];
    var letters := ReadLetters(c, stream);
    if letters.None? {
      return Err(Truncated(Letters));
    }
    var alphabet := c.alphabetRead(letters.value.rest);
    if alphabet.None? {
      return Err(Truncated(Symbols));
    }
    var transducers := ReadTransducers(c, alphabet.value.rest);
    if transducers.None? {
      return Err(Truncated(Transducers));
    }
    r := Ok(Artifact(letters.value.value, alphabet.value.value, transducers.value.value));
  }
}
