/**
 * Checks that never fail: whether a move or an algorithm parses, whether a
 * stored algorithm record agrees with its own notation, and a summary over
 * many records. Errors are collected rather than stopping at the first.
 */
module Validator {
  import opened Wrappers
  import opened Text
  import opened Notation

  /**
   * A stored algorithm record. `moves` is `None` where the record has no
   * moves list; an absent or non-string id is the empty string.
   */
  datatype Algorithm = Algorithm(id: string, moves: Option<seq<Move>>, notation: string)

  /** The problems a record can have, each carrying what its message reports. */
  datatype ValidationError =
    | InvalidNotation(notation: string)
    | MovesMissing
    | MoveCountMismatch(parsed: nat, stored: nat)
    | MoveMismatch(position: nat, parsedMove: string, storedMove: string)
    | ParseFailed(cause: AlgorithmError)
    | IdMissing

  datatype ValidationResult = ValidationResult(valid: bool, errors: seq<ValidationError>)

  datatype InvalidEntry = InvalidEntry(id: string, errors: seq<ValidationError>)

  datatype BatchSummary = BatchSummary(total: nat, valid: nat, invalid: nat, invalidAlgorithms: seq<InvalidEntry>)

  /** `isValidMove`: the text parses as one move. */
  predicate IsValidMove(s: string) {
    ParseMove(s).Ok?
  }

  /** `isValidAlgorithm`: the text parses as an algorithm. */
  predicate IsValidAlgorithm(s: string) {
    ParseAlgorithm(s).Ok?
  }

  /** A move text is valid exactly when, once trimmed, it is a base name followed by a modifier. */
  lemma ValidMoveShape(s: string)
    ensures IsValidMove(s) <==> exists b, m :: Trim(s) == Canonical(b, m)
  {
    ParseMoveSucceeds(s);
  }

  /** Empty and blank move texts are invalid. */
  lemma BlankMoveInvalid(s: string)
    requires AllSpace(s)
    ensures !IsValidMove(s)
  {
  }

  /**
   * An algorithm is valid exactly when every word left after removing
   * comments is a valid move; so empty and blank algorithms are valid.
   */
  lemma ValidAlgorithmWords(s: string)
    ensures IsValidAlgorithm(s) <==> forall w :: w in AlgorithmWords(s) ==> IsValidMove(w)
    ensures AllSpace(s) ==> IsValidAlgorithm(s)
  {
    ParseAlgorithmSucceeds(s);
  }

  /** Printed well-formed moves always form a valid algorithm. */
  lemma PrintedAlgorithmValid(moves: seq<Move>)
    requires forall i :: 0 <= i < |moves| ==> WellFormed(moves[i])
    ensures IsValidAlgorithm(MovesToNotation(moves))
  {
    ParsePrinted(moves);
  }

  /** The "Move mismatch" errors for positions below `n`, in order. */
  function MismatchErrors(parsed: seq<Move>, stored: seq<Move>, n: nat): (es: seq<ValidationError>)
    requires n <= |parsed| && n <= |stored|
    ensures |es| <= n
    ensures forall i :: 0 <= i < |es| ==> es[i].MoveMismatch?
  {
    if n == 0 then []
    else
      MismatchErrors(parsed, stored, n - 1)
      + (if parsed[n - 1].notation != stored[n - 1].notation
         then [MoveMismatch(n - 1, parsed[n - 1].notation, stored[n - 1].notation)] else [])
  }

  /**
   * The mismatch errors below `n` are exactly one per position below `n`
   * where the two texts differ, carrying the position and both texts.
   */
  lemma {:induction false} MismatchErrorsExact(parsed: seq<Move>, stored: seq<Move>, n: nat)
    requires n <= |parsed| && n <= |stored|
    ensures forall e :: e in MismatchErrors(parsed, stored, n) ==>
      (e.MoveMismatch? && e.position < n
       && e == MoveMismatch(e.position, parsed[e.position].notation, stored[e.position].notation)
       && parsed[e.position].notation != stored[e.position].notation)
    ensures forall k :: 0 <= k < n && parsed[k].notation != stored[k].notation ==>
      MoveMismatch(k, parsed[k].notation, stored[k].notation) in MismatchErrors(parsed, stored, n)
  {
    if n > 0 {
      MismatchErrorsExact(parsed, stored, n - 1);
    }
  }

  function Min(a: nat, b: nat): nat {
    if a <= b then a else b
  }

  /** What comparing the parsed moves with the stored ones reports. */
  function ConsistencyErrors(parsed: seq<Move>, stored: seq<Move>): seq<ValidationError> {
    (if |parsed| != |stored| then [MoveCountMismatch(|parsed|, |stored|)] else [])
    + MismatchErrors(parsed, stored, Min(|parsed|, |stored|))
  }

  /** The first check: notation that does not parse is reported as invalid. */
  function NotationErrors(notation: string, parsed: Result<seq<Move>, AlgorithmError>): seq<ValidationError> {
    if parsed.Ok? then [] else [InvalidNotation(notation)]
  }

  /** The second check, once the moves list is known to exist: the comparison, or the parse failure. */
  function OutcomeErrors(parsed: Result<seq<Move>, AlgorithmError>, stored: seq<Move>): seq<ValidationError> {
    match parsed
    case Ok(ms) => ConsistencyErrors(ms, stored)
    case Err(e) => [ParseFailed(e)]
  }

  /** The last check: a blank id. */
  function IdErrors(id: string): seq<ValidationError> {
    if Trim(id) == [] then [IdMissing] else []
  }

  /**
   * `validateAlgorithmData` as a value, given what the parser made of the
   * record's notation: the notation check; a missing moves list ends the
   * check there; otherwise the comparison with the parsed moves or the parse
   * failure; then the id check.
   */
  function Check(a: Algorithm, parsed: Result<seq<Move>, AlgorithmError>): (r: ValidationResult)
    ensures r.valid <==> r.errors == []
  {
    if a.moves.None? then ValidationResult(false, NotationErrors(a.notation, parsed) + [MovesMissing])
    else
      var errors := NotationErrors(a.notation, parsed) + OutcomeErrors(parsed, a.moves.value) + IdErrors(a.id);
      ValidationResult(errors == [], errors)
  }

  /** The result of validating a record against its own notation. */
  function Validate(a: Algorithm): ValidationResult {
    Check(a, ParseAlgorithm(a.notation))
  }

  /**
   * The comparison inside `validateAlgorithmData`'s `try` block: a count
   * error when the lengths differ, then one error per differing position
   * below both lengths, found by a loop.
   */
  method CompareMoves(parsed: seq<Move>, stored: seq<Move>) returns (errors: seq<ValidationError>)
    ensures errors == ConsistencyErrors(parsed, stored)
  {
    errors := [];
    if |parsed| != |stored| {
      errors := errors + [MoveCountMismatch(|parsed|, |stored|)];
    }
    var counted := errors;
    for i := 0 to Min(|parsed|, |stored|)
      invariant errors == counted + MismatchErrors(parsed, stored, i)
    {
      if parsed[i].notation != stored[i].notation {
        errors := errors + [MoveMismatch(i, parsed[i].notation, stored[i].notation)];
      }
    }
  }

  /**
   * The body of `validateAlgorithmData` once the notation has been parsed:
   * errors are appended one by one as the checks run, with an early return
   * when the moves list is missing.
   */
  method CollectErrors(a: Algorithm, outcome: Result<seq<Move>, AlgorithmError>) returns (r: ValidationResult)
    ensures r == Check(a, outcome)
  {
    var errors: seq<ValidationError> := [];
    if !outcome.Ok? {
      errors := errors + [InvalidNotation(a.notation)];
    }
    assert errors == NotationErrors(a.notation, outcome);
    if a.moves.None? {
      errors := errors + [MovesMissing];
      return ValidationResult(false, errors);
    }
    match outcome {
      case Ok(parsed) =>
        var compared := CompareMoves(parsed, a.moves.value);
        errors := errors + compared;
      case Err(e) =>
        errors := errors + [ParseFailed(e)];
    }
    ghost var checked := errors;
    assert checked == NotationErrors(a.notation, outcome) + OutcomeErrors(outcome, a.moves.value);
    if Trim(a.id) == [] {
      errors := errors + [IdMissing];
    }
    assert errors == checked + IdErrors(a.id);
    return ValidationResult(|errors| == 0, errors);
  }

  /**
   * `validateAlgorithmData`: the notation is parsed once, and its outcome
   * serves both the validity check and the comparison.
   */
  method ValidateAlgorithmData(a: Algorithm) returns (r: ValidationResult)
    ensures r == Validate(a)
  {
    var outcome := ParseAlgorithm(a.notation);
    r := CollectErrors(a, outcome);
  }

  /** No mismatch error below `n` exactly when the notations agree at every position below `n`. */
  lemma {:induction false} NoMismatchIff(parsed: seq<Move>, stored: seq<Move>, n: nat)
    requires n <= |parsed| && n <= |stored|
    ensures MismatchErrors(parsed, stored, n) == [] <==> forall k :: 0 <= k < n ==> parsed[k].notation == stored[k].notation
  {
    MismatchErrorsExact(parsed, stored, n);
    if MismatchErrors(parsed, stored, n) != [] {
      var e := MismatchErrors(parsed, stored, n)[0];
      assert e in MismatchErrors(parsed, stored, n);
    }
  }

  /**
   * Whatever the parser returned, a record is valid exactly when its moves
   * list is present, its notation parsed to moves with the same texts as
   * the stored ones, and its id is not blank.
   */
  lemma ValidIff(a: Algorithm, parsed: Result<seq<Move>, AlgorithmError>)
    ensures Check(a, parsed).valid <==>
      a.moves.Some? && parsed.Ok? && Notations(parsed.value) == Notations(a.moves.value) && Trim(a.id) != []
  {
    if a.moves.Some? && parsed.Ok? {
      var ms := parsed.value;
      var stored := a.moves.value;
      MismatchErrorsExact(ms, stored, Min(|ms|, |stored|));
      NoMismatchIff(ms, stored, Min(|ms|, |stored|));
      if Notations(ms) == Notations(stored) {
        assert forall k :: 0 <= k < |ms| ==> Notations(ms)[k] == Notations(stored)[k];
      }
    }
  }

  /** A record stored from its own notation by the parser is valid when its id is not blank. */
  lemma ParsedRecordValid(id: string, notation: string)
    requires ParseAlgorithm(notation).Ok? && Trim(id) != []
    ensures Validate(Algorithm(id, Some(ParseAlgorithm(notation).value), notation)).valid
  {
    ValidIff(Algorithm(id, Some(ParseAlgorithm(notation).value), notation), ParseAlgorithm(notation));
  }

  /**
   * A missing moves list ends the check: the result is invalid, reports the
   * missing list last, and the id is never looked at.
   */
  lemma MissingMovesStops(a: Algorithm, parsed: Result<seq<Move>, AlgorithmError>)
    requires a.moves.None?
    ensures var r := Check(a, parsed);
      !r.valid && r.errors[|r.errors| - 1] == MovesMissing && IdMissing !in r.errors
      && (r.errors == [MovesMissing] <==> parsed.Ok?)
  {
  }

  /** Notation that does not parse is reported twice: as invalid and as the parse failure. */
  lemma UnparseableReportedTwice(a: Algorithm, parsed: Result<seq<Move>, AlgorithmError>)
    requires a.moves.Some? && parsed.Err?
    ensures var r := Check(a, parsed);
      !r.valid && r.errors[0] == InvalidNotation(a.notation) && r.errors[1] == ParseFailed(parsed.error)
  {
  }

  /** When the notation parses, the errors are the comparison's followed by the id check's. */
  lemma ParsedErrors(a: Algorithm, parsed: Result<seq<Move>, AlgorithmError>)
    requires a.moves.Some? && parsed.Ok?
    ensures Check(a, parsed).errors == ConsistencyErrors(parsed.value, a.moves.value) + IdErrors(a.id)
  {
    assert NotationErrors(a.notation, parsed) == [];
    assert OutcomeErrors(parsed, a.moves.value) == ConsistencyErrors(parsed.value, a.moves.value);
    assert [] + ConsistencyErrors(parsed.value, a.moves.value) == ConsistencyErrors(parsed.value, a.moves.value);
  }

  /**
   * When the notation parses, a length difference is reported by exactly one
   * count error, which comes first and carries both lengths; equal lengths
   * give no count error.
   */
  lemma CountMismatchReported(a: Algorithm, parsed: Result<seq<Move>, AlgorithmError>)
    requires a.moves.Some? && parsed.Ok?
    ensures var es := Check(a, parsed).errors; var p := |parsed.value|; var q := |a.moves.value|;
      (p != q ==> es[0] == MoveCountMismatch(p, q))
      && (forall i :: 0 <= i < |es| && es[i].MoveCountMismatch? ==> i == 0 && p != q)
  {
    var ms := parsed.value;
    var stored := a.moves.value;
    var c := MoveCountMismatch(|ms|, |stored|);
    var count := if |ms| != |stored| then [c] else [];
    var mm := MismatchErrors(ms, stored, Min(|ms|, |stored|));
    ParsedErrors(a, parsed);
    ErrorLayout(count, mm, IdErrors(a.id), c);
  }

  /**
   * When the notation parses, every position below both lengths where the
   * texts differ gets a mismatch error carrying the position and both texts.
   */
  lemma MoveMismatchesReported(a: Algorithm, parsed: Result<seq<Move>, AlgorithmError>)
    requires a.moves.Some? && parsed.Ok?
    ensures var es := Check(a, parsed).errors; var ms := parsed.value; var stored := a.moves.value;
      forall k :: 0 <= k < |ms| && k < |stored| && ms[k].notation != stored[k].notation ==>
        MoveMismatch(k, ms[k].notation, stored[k].notation) in es
  {
    var ms := parsed.value;
    var stored := a.moves.value;
    var count := if |ms| != |stored| then [MoveCountMismatch(|ms|, |stored|)] else [];
    var mm := MismatchErrors(ms, stored, Min(|ms|, |stored|));
    ParsedErrors(a, parsed);
    MismatchErrorsExact(ms, stored, Min(|ms|, |stored|));
  }

  /**
   * ... and no other mismatch error is reported: each one names a position
   * below both lengths where the texts differ.
   */
  lemma MoveMismatchesGenuine(a: Algorithm, parsed: Result<seq<Move>, AlgorithmError>)
    requires a.moves.Some? && parsed.Ok?
    ensures var es := Check(a, parsed).errors; var ms := parsed.value; var stored := a.moves.value;
      forall e :: e in es && e.MoveMismatch? ==>
        e.position < |ms| && e.position < |stored| && ms[e.position].notation != stored[e.position].notation
  {
    var ms := parsed.value;
    var stored := a.moves.value;
    var c := MoveCountMismatch(|ms|, |stored|);
    var count := if |ms| != |stored| then [c] else [];
    var mm := MismatchErrors(ms, stored, Min(|ms|, |stored|));
    ParsedErrors(a, parsed);
    ErrorLayout(count, mm, IdErrors(a.id), c);
    MismatchErrorsExact(ms, stored, Min(|ms|, |stored|));
  }

  /**
   * In a count error (or none) followed by mismatch errors and id errors,
   * the count error is the only one of its kind and comes first, and every
   * mismatch error is one of the given ones.
   */
  lemma ErrorLayout(count: seq<ValidationError>, mm: seq<ValidationError>, ids: seq<ValidationError>, c: ValidationError)
    requires (count == [] || count == [c]) && c.MoveCountMismatch?
    requires forall i :: 0 <= i < |mm| ==> mm[i].MoveMismatch?
    requires forall i :: 0 <= i < |ids| ==> ids[i] == IdMissing
    ensures count == [c] ==> (count + mm + ids)[0] == c
    ensures forall i :: 0 <= i < |count + mm + ids| && (count + mm + ids)[i].MoveCountMismatch? ==> i == 0 && count == [c]
    ensures forall e :: e in count + mm + ids && e.MoveMismatch? ==> e in mm
  {
  }

  /** With the moves list present, a blank id is reported, as the last error, and only then. */
  lemma BlankIdReported(a: Algorithm, parsed: Result<seq<Move>, AlgorithmError>)
    requires a.moves.Some?
    ensures var r := Check(a, parsed);
      (IdMissing in r.errors <==> Trim(a.id) == []) && (Trim(a.id) == [] ==> r.errors[|r.errors| - 1] == IdMissing)
  {
    if parsed.Ok? {
      var ms := MismatchErrors(parsed.value, a.moves.value, Min(|parsed.value|, |a.moves.value|));
      assert IdMissing !in ms;
    }
    assert IdMissing !in NotationErrors(a.notation, parsed) + OutcomeErrors(parsed, a.moves.value);
  }

  /** A record's id with its validation result, as the batch check pairs them. */
  datatype Checked = Checked(id: string, result: ValidationResult)

  /** Every record validated, in input order. */
  function CheckAll(algs: seq<Algorithm>): (rs: seq<Checked>)
    ensures |rs| == |algs|
    ensures forall i :: 0 <= i < |algs| ==> rs[i] == Checked(algs[i].id, Validate(algs[i]))
  {
    seq(|algs|, i requires 0 <= i < |algs| => Checked(algs[i].id, Validate(algs[i])))
  }

  /** The failed results with their ids, in order. */
  function Failures(rs: seq<Checked>): (r: seq<InvalidEntry>)
    ensures |r| <= |rs|
  {
    if rs == [] then []
    else
      var rest := Failures(rs[1..]);
      if rs[0].result.valid then rest else [InvalidEntry(rs[0].id, rs[0].result.errors)] + rest
  }

  /** How many results are valid. */
  function CountValid(rs: seq<Checked>): (n: nat)
    ensures n <= |rs|
  {
    if rs == [] then 0 else (if rs[0].result.valid then 1 else 0) + CountValid(rs[1..])
  }

  /**
   * `validateAlgorithmBatch`: the number of records, how many are valid and
   * invalid, and the invalid ones with their errors. The valid count is the
   * total less the invalid count.
   */
  function ValidateAlgorithmBatch(algs: seq<Algorithm>): (r: BatchSummary)
    ensures r.total == |algs| && r.valid + r.invalid == r.total
    ensures r.invalid == |r.invalidAlgorithms|
    ensures r.valid == CountValid(CheckAll(algs))
    ensures r.invalidAlgorithms == Failures(CheckAll(algs))
  {
    var results := CheckAll(algs);
    var invalid := Failures(results);
    FailureCount(results);
    BatchSummary(|algs|, |results| - |invalid|, |invalid|, invalid)
  }

  lemma {:induction false} FailureCount(rs: seq<Checked>)
    ensures |Failures(rs)| + CountValid(rs) == |rs|
  {
    if rs != [] {
      FailureCount(rs[1..]);
    }
  }

  /** The failures of a concatenation are those of each part, in order. */
  lemma {:induction false} FailuresAppend(xs: seq<Checked>, ys: seq<Checked>)
    ensures Failures(xs + ys) == Failures(xs) + Failures(ys)
  {
    if xs == [] {
      assert xs + ys == ys;
    } else {
      assert (xs + ys)[1..] == xs[1..] + ys;
      FailuresAppend(xs[1..], ys);
    }
  }

  /** Every failed result is listed, and everything listed is a failed result with its errors. */
  lemma {:induction false} FailuresExact(rs: seq<Checked>)
    ensures forall i :: 0 <= i < |rs| && !rs[i].result.valid ==>
      InvalidEntry(rs[i].id, rs[i].result.errors) in Failures(rs)
    ensures forall e :: e in Failures(rs) ==>
      exists i :: 0 <= i < |rs| && !rs[i].result.valid && e == InvalidEntry(rs[i].id, rs[i].result.errors)
  {
    if rs != [] {
      FailuresExact(rs[1..]);
      forall i | 0 <= i < |rs| && !rs[i].result.valid
        ensures InvalidEntry(rs[i].id, rs[i].result.errors) in Failures(rs)
      {
        if i > 0 {
          assert rs[1..][i - 1] == rs[i];
        }
      }
      forall e | e in Failures(rs)
        ensures exists i :: 0 <= i < |rs| && !rs[i].result.valid && e == InvalidEntry(rs[i].id, rs[i].result.errors)
      {
        if e !in Failures(rs[1..]) {
          assert !rs[0].result.valid && e == InvalidEntry(rs[0].id, rs[0].result.errors);
        } else {
          var i :| 0 <= i < |rs[1..]| && !rs[1..][i].result.valid
            && e == InvalidEntry(rs[1..][i].id, rs[1..][i].result.errors);
          assert rs[1..][i] == rs[i + 1];
        }
      }
    }
  }

  /**
   * The batch summary lists exactly the records that fail validation, with
   * their ids and errors.
   */
  lemma BatchListsInvalid(algs: seq<Algorithm>)
    ensures var r := ValidateAlgorithmBatch(algs);
      (forall i :: 0 <= i < |algs| && !Validate(algs[i]).valid ==>
        InvalidEntry(algs[i].id, Validate(algs[i]).errors) in r.invalidAlgorithms)
      && (forall e :: e in r.invalidAlgorithms ==>
        exists i :: 0 <= i < |algs| && !Validate(algs[i]).valid && e == InvalidEntry(algs[i].id, Validate(algs[i]).errors))
  {
    var rs := CheckAll(algs);
    FailuresExact(rs);
    forall e | e in ValidateAlgorithmBatch(algs).invalidAlgorithms
      ensures exists i :: 0 <= i < |algs| && !Validate(algs[i]).valid && e == InvalidEntry(algs[i].id, Validate(algs[i]).errors)
    {
      var i :| 0 <= i < |rs| && !rs[i].result.valid && e == InvalidEntry(rs[i].id, rs[i].result.errors);
      assert rs[i] == Checked(algs[i].id, Validate(algs[i]));
    }
  }

  /** A batch with one valid and one invalid result lists only the invalid one. */
  lemma FailuresOfTwo(good: Checked, bad: Checked)
    requires good.result.valid && !bad.result.valid
    ensures Failures([good, bad]) == [InvalidEntry(bad.id, bad.result.errors)]
    ensures CountValid([good, bad]) == 1
  {
    assert [good, bad][1..] == [bad];
    assert [bad][1..] == [];
  }
}
