/**
 * lt-print: dump every transducer of a compiled file as text.
 *
 * The driver reads its options (-H for HFST-compatible escapes), takes the
 * binary file and an optional output file, opens both, decodes the file
 * and then, for each transducer in ascending name order, joins its final
 * states and shows it, writing "--" between consecutive transducers.
 *
 * Opening files and the position query are observations given as
 * parameters; the output file is the sequence of chunks written to it.
 */
module LtPrint {
  import opened Results
  import opened Bytes
  import opened Getopt
  import opened SortedTable
  import opened Container

  // ---------------------------------------------------------------------
  // Command line

  /** The getopt loop: -H sets `hfst`; -h and every option getopt does not
      know end in the usage message (None). */
  method ParseOptions(ts: seq<Token>) returns (hfst: Option<bool>)
    ensures hfst.Some? <==> OnlyFrom(ts, {'H'})
    ensures hfst.Some? ==> hfst.value == Given(ts, 'H')
  {
    var flag := false;
    var i := 0;
    while i < |ts|
      invariant 0 <= i <= |ts|
      invariant OnlyFrom(ts[..i], {'H'})
      invariant flag == Given(ts[..i], 'H')
    {
      assert ts[..i + 1] == ts[..i] + [ts[i]];
      GivenSnoc(ts[..i], ts[i], 'H');
      if ts[i].code != 'H' {
        return None;
      }
      flag := true;
      i := i + 1;
    }
    assert ts[..i] == ts;
    hfst := Some(flag);
  }

  /** Where the text goes: standard output, or the named file. */
  datatype Destination = Stdout | File(path: string)

  datatype Files = Files(infile: string, dest: Destination)

  /** The positional arguments: the binary file, then optionally the output
      file; an empty output name leaves the output on standard output. */
  function Arguments(positionals: seq<string>): (r: Option<Files>)
    ensures r.Some? <==> |positionals| == 1 || |positionals| == 2
    ensures r.Some? ==> r.value.infile == positionals[0]
    ensures r.Some? ==> (r.value.dest.File? <==> |positionals| == 2 && positionals[1] != "")
    ensures r.Some? && r.value.dest.File? ==> r.value.dest.path == positionals[1]
  {
    if |positionals| == 1 then Some(Files(positionals[0], Stdout))
    else if |positionals| == 2 then
      Some(Files(positionals[0], if positionals[1] != "" then File(positionals[1]) else Stdout))
    else None
  }

  // ---------------------------------------------------------------------
  // The listing

  /** Transducer::joinFinals and Transducer::show, whose workings are not
      part of this model. */
  datatype Renderer<!A, !T> = Renderer(joinFinals: T -> T, show: (A, T, bool) -> string)

  /** What the loop writes: the text of one transducer, or the "--\n" line. */
  datatype Chunk = Shown(text: string) | Separator

  /** The table after `joinFinals` has run on every entry. */
  function Joined<A, T>(rd: Renderer<A, T>, table: seq<Entry<T>>): seq<Entry<T>>
  {
    seq(|table|, i requires 0 <= i < |table| => Entry(table[i].name, rd.joinFinals(table[i].value)))
  }

  /** The text `show` produces for each entry, in table order. */
  function Shows<A, T>(rd: Renderer<A, T>, alphabet: A, table: seq<Entry<T>>, hfst: bool): seq<string>
  {
    seq(|table|, i requires 0 <= i < |table| => rd.show(alphabet, table[i].value, hfst))
  }

  /** Reference listing: the texts with a separator between each two
      consecutive ones. */
  function Listing(texts: seq<string>): seq<Chunk>
    decreases |texts|
  {
    if |texts| == 0 then []
    else if |texts| == 1 then [Shown(texts[0])]
    else [Shown(texts[0]), Separator] + Listing(texts[1..])
  }

  /** The shape of a listing: texts at the even positions in their order,
      separators at the odd ones, and nothing after the last text. */
  lemma {:induction false} ListingShape(texts: seq<string>)
    ensures |Listing(texts)| == if |texts| == 0 then 0 else 2 * |texts| - 1
    ensures forall j :: 0 <= j < |Listing(texts)| ==>
      Listing(texts)[j] == if j % 2 == 0 then Shown(texts[j / 2]) else Separator
    decreases |texts|
  {
    if |texts| > 1 {
      var rest := texts[1..];
      ListingShape(rest);
      var l := Listing(texts);
      forall j | 0 <= j < |l|
        ensures l[j] == if j % 2 == 0 then Shown(texts[j / 2]) else Separator
      {
        if j >= 2 {
          assert l[j] == Listing(rest)[j - 2];
          assert rest[(j - 2) / 2] == texts[j / 2];
        }
      }
    }
  }

  /** The number of "--" lines is one fewer than the number of
      transducers, and a non-empty listing ends with a transducer. */
  lemma SeparatorCount(texts: seq<string>)
    requires |texts| > 0
    ensures |set j | 0 <= j < |Listing(texts)| && Listing(texts)[j] == Separator| == |texts| - 1
    ensures Listing(texts)[|Listing(texts)| - 1] == Shown(texts[|texts| - 1])
  {
    ListingShape(texts);
    var l := Listing(texts);
    var odd := set j | 0 <= j < |l| && l[j] == Separator;
    assert odd == set k | 0 <= k < |texts| - 1 :: 2 * k + 1 by {
      forall j | j in odd ensures j in set k | 0 <= k < |texts| - 1 :: 2 * k + 1 {
        assert j == 2 * (j / 2) + 1;
      }
    }
    OddCount(|texts| - 1);
  }

  lemma {:induction false} OddCount(n: nat)
    ensures |set k | 0 <= k < n :: 2 * k + 1| == n
  {
    if n > 0 {
      OddCount(n - 1);
      var below := set k | 0 <= k < n - 1 :: 2 * k + 1;
      assert (set k | 0 <= k < n :: 2 * k + 1) == below + {2 * (n - 1) + 1};
      assert 2 * (n - 1) + 1 !in below;
    }
  }

  /** Peeling the first text off a listing: a separator follows it unless
      it is the last. */
  lemma ListingFrom(texts: seq<string>, i: nat)
    requires i < |texts|
    ensures Listing(texts[i..]) == [Shown(texts[i])] + (if i + 1 < |texts| then [Separator] else []) + Listing(texts[i + 1..])
  {
    assert texts[i..][1..] == texts[i + 1..];
    if i + 1 == |texts| {
      assert Listing(texts[i + 1..]) == [];
    }
  }

  /** `penum = transducers.end(); penum--;` as written: the position of the
      last entry, which for an empty map lies before the first one. */
  function Penum<T>(table: seq<Entry<T>>): (p: int)
    ensures p >= 0 <==> |table| > 0
  {
    |table| - 1
  }

  /** A file whose transducer count is zero, or reads as a negative int,
      decodes to an empty map, and `penum--` then steps before begin(). */
  lemma EmptyTableFile<A, T>(c: Codecs<A, T>, s: seq<byte>)
    requires c.multibyteRead(s).Some? && ToCInt(c.multibyteRead(s).value.value) <= 0
    ensures TransducerSection(c, s).Some?
    ensures TransducerSection(c, s).value.value == []
    ensures Penum(TransducerSection(c, s).value.value) < 0
  {
  }

  /** The output loop over the map in key order. `penum` is the last entry;
      every entry gets `joinFinals` in place, then `show`, then a separator
      unless it is the last. Returns what was written and the table as the
      loop leaves it. */
  method Render<A, T>(rd: Renderer<A, T>, alphabet: A, table: seq<Entry<T>>, hfst: bool)
    returns (out: seq<Chunk>, joined: seq<Entry<T>>)
    ensures joined == Joined(rd, table)
    ensures out == Listing(Shows(rd, alphabet, joined, hfst))
    ensures |table| == 0 ==> out == []
  {
    ghost var texts := Shows(rd, alphabet, Joined(rd, table), hfst);
    joined := table;
    out := [];
    var penum := |table| - 1;
    var i := 0;
    while i < |table|
      invariant 0 <= i <= |table| && |joined| == |table|
      invariant forall k :: 0 <= k < i ==> joined[k] == Joined(rd, table)[k]
      invariant forall k :: i <= k < |table| ==> joined[k] == table[k]
      invariant out + Listing(texts[i..]) == Listing(texts)
    {
      joined := joined[i := Entry(joined[i].name, rd.joinFinals(joined[i].value))];
      var shown := rd.show(alphabet, joined[i].value, hfst);
      assert shown == texts[i];
      ListingFrom(texts, i);
      ghost var written := out;
      if i != penum {
        out := out + [Shown(shown), Separator];
      } else {
        out := out + [Shown(shown)];
      }
      assert written + Listing(texts[i..]) == out + Listing(texts[i + 1..]);
      i := i + 1;
    }
    assert joined == Joined(rd, table);
    assert out + [] == out;
  }

  // ---------------------------------------------------------------------
  // The driver

  /** What the environment reports: whether fopen of the input and of the
      output file succeed, and whether fgetpos succeeds. */
  datatype Environment = Environment(inputOpens: bool, outputOpens: bool, positionKnown: bool)

  /** How `main` ends. */
  datatype PrintOutcome =
    | Usage                               // bad option, -h, or not 1 or 2 positionals
    | CannotOpenInput(path: string)
    | CannotOpenOutput(path: string)
    | ReadFailed(dest: Destination, error: ReadError)  // the container could not be read,
                                                       // after the output file was opened
    | Printed(dest: Destination, listing: seq<Chunk>)

  /** Reference semantics of `main`, checks in the order the code makes them.
      A table that decodes empty prints nothing; the source's behaviour there
      is undefined (see `EmptyTableFile`). */
  function PrintResult<A, T>(ts: seq<Token>, positionals: seq<string>, env: Environment,
                             c: Codecs<A, T>, rd: Renderer<A, T>, fmt: Format, input: seq<byte>): PrintOutcome
  {
    if !OnlyFrom(ts, {'H'}) then Usage
    else
      match Arguments(positionals)
      case None => Usage
      case Some(f) =>
        if !env.inputOpens then CannotOpenInput(f.infile)
        else if f.dest.File? && !env.outputOpens then CannotOpenOutput(f.dest.path)
        else
          match Decode(c, fmt, env.positionKnown, input)
          case Err(e) => ReadFailed(f.dest, e)
          case Ok(a) => Printed(f.dest, Listing(Shows(rd, a.alphabet, Joined(rd, a.transducers), Given(ts, 'H'))))
  }

  /** `main`, step by step. */
  method RunLtPrint<A, T>(ts: seq<Token>, positionals: seq<string>, env: Environment,
                          c: Codecs<A, T>, rd: Renderer<A, T>, fmt: Format, input: seq<byte>)
    returns (outcome: PrintOutcome)
    ensures outcome == PrintResult(ts, positionals, env, c, rd, fmt, input)
  {
    var hfst := ParseOptions(ts);
    if hfst.None? {
      return Usage;
    }
    var infile, outfile := "", "";
    if |positionals| == 1 {
      infile := positionals[0];
    } else if |positionals| == 2 {
      infile, outfile := positionals[0], positionals[1];
    } else {
      return Usage;
    }

    if !env.inputOpens {
      return CannotOpenInput(infile);
    }
    var dest := Stdout;
    if outfile != "" {
      if !env.outputOpens {
        return CannotOpenOutput(outfile);
      }
      dest := File(outfile);
    }

    var artifact := ReadArtifact(c, fmt, env.positionKnown, input);
    if artifact.Err? {
      return ReadFailed(dest, artifact.error);
    }
    var out, _ := Render(rd, artifact.value.alphabet, artifact.value.transducers, hfst.value);
    outcome := Printed(dest, out);
  }

  // ---------------------------------------------------------------------
  // Properties of the driver

  /** What a successful run prints: the transducers read, one per distinct
      name in ascending name order, each shown after joinFinals with the -H
      setting, separated by "--" lines. */
  lemma PrintedListing<A, T>(ts: seq<Token>, positionals: seq<string>, env: Environment,
                             c: Codecs<A, T>, rd: Renderer<A, T>, fmt: Format, input: seq<byte>)
    requires PrintResult(ts, positionals, env, c, rd, fmt, input).Printed?
    ensures Decode(c, fmt, env.positionKnown, input).Ok?
    ensures var table := Decode(c, fmt, env.positionKnown, input).value.transducers;
      var alphabet := Decode(c, fmt, env.positionKnown, input).value.alphabet;
      var out := PrintResult(ts, positionals, env, c, rd, fmt, input).listing;
      && Ascending(table)
      && |out| == (if |table| == 0 then 0 else 2 * |table| - 1)
      && forall j :: 0 <= j < |out| ==>
           out[j] == if j % 2 == 0 then Shown(rd.show(alphabet, rd.joinFinals(table[j / 2].value), Given(ts, 'H')))
                     else Separator
  {
    var a := Decode(c, fmt, env.positionKnown, input).value;
    var texts := Shows(rd, a.alphabet, Joined(rd, a.transducers), Given(ts, 'H'));
    ListingShape(texts);
    DecodedTableAscending(c, fmt, env.positionKnown, input);
  }

  /** Every table `main` decodes is in ascending name order. */
  lemma DecodedTableAscending<A, T>(c: Codecs<A, T>, fmt: Format, positionKnown: bool, input: seq<byte>)
    requires Decode(c, fmt, positionKnown, input).Ok?
    ensures Ascending(Decode(c, fmt, positionKnown, input).value.transducers)
  {
  }

  /** A read failure comes after both files were opened: the outcome names
      the destination the arguments chose, which, when it is a file, fopen
      has already created or emptied. */
  lemma OutputOpenedBeforeReading<A, T>(ts: seq<Token>, positionals: seq<string>, env: Environment,
                                        c: Codecs<A, T>, rd: Renderer<A, T>, fmt: Format, input: seq<byte>)
    requires PrintResult(ts, positionals, env, c, rd, fmt, input).ReadFailed?
    ensures Arguments(positionals).Some? && env.inputOpens
    ensures var r := PrintResult(ts, positionals, env, c, rd, fmt, input);
      && r.dest == Arguments(positionals).value.dest
      && (r.dest.File? ==> env.outputOpens)
      && Decode(c, fmt, env.positionKnown, input) == Err(r.error)
  {
  }

  /** Nothing is read from the input, and its contents do not matter, when
      the command line is refused or a file cannot be opened. */
  lemma FailuresBeforeReading<A, T>(ts: seq<Token>, positionals: seq<string>, env: Environment,
                                    c: Codecs<A, T>, rd: Renderer<A, T>, fmt: Format, input: seq<byte>, other: seq<byte>)
    requires var r := PrintResult(ts, positionals, env, c, rd, fmt, input);
      r.Usage? || r.CannotOpenInput? || r.CannotOpenOutput?
    ensures PrintResult(ts, positionals, env, c, rd, fmt, other) == PrintResult(ts, positionals, env, c, rd, fmt, input)
  {
  }
}
