/**
 * The values that getopt/getopt_long hand back to a command-line driver,
 * taken as already tokenised: one token per option occurrence, in order.
 */
module Getopt {

  /** The option character getopt returned (`'?'` for an unrecognised option
      or a missing argument) and its argument (empty when it takes none). */
  datatype Token = Token(code: char, arg: string)

  /** Some occurrence of option `code` was given. */
  predicate Given(ts: seq<Token>, code: char)
  {
    exists i :: 0 <= i < |ts| && ts[i].code == code
  }

  /** Every option given is one of `accepted`. */
  predicate OnlyFrom(ts: seq<Token>, accepted: set<char>)
  {
    forall i :: 0 <= i < |ts| ==> ts[i].code in accepted
  }

  /** The argument of the last occurrence of option `code`, or "" when it
      was never given: what a variable that each occurrence overwrites holds. */
  function LastArg(ts: seq<Token>, code: char): string
  {
    if ts == [] then ""
    else if ts[|ts| - 1].code == code then ts[|ts| - 1].arg
    else LastArg(ts[..|ts| - 1], code)
  }

  lemma LastArgSnoc(ts: seq<Token>, t: Token, code: char)
    ensures LastArg(ts + [t], code) == if t.code == code then t.arg else LastArg(ts, code)
  {
    assert (ts + [t])[..|ts|] == ts;
  }

  lemma GivenSnoc(ts: seq<Token>, t: Token, code: char)
    ensures Given(ts + [t], code) <==> Given(ts, code) || t.code == code
  {
    if Given(ts, code) {
      var i :| 0 <= i < |ts| && ts[i].code == code;
      assert (ts + [t])[i] == ts[i];
    }
    if t.code == code {
      assert (ts + [t])[|ts|] == t;
    }
  }
}
