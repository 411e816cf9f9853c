/**
 * The console shell: read an identifier, look its transactions up, order them
 * by creation date and try to print each one in turn.
 */
module Shell {
  import opened Wrappers
  import opened Domain
  import IdInput
  import Ordering

  /**
   * One print attempt: the transaction, and whether the attempt ended without
   * an exception reaching the loop's handler.
   */
  datatype Attempt = Attempt(transaction: Transaction, completed: bool)

  /** What the repository gave for an identifier: a list, null, or an exception. */
  datatype Lookup = Rows(rows: seq<Transaction>) | NoList | Threw

  /** How a session ends. */
  datatype Outcome =
    | InvalidInput
    | NotFound(idApi: int)
    | Processed(idApi: int, attempts: seq<Attempt>)
    | Failed(idApi: int)

  /** The line the shell works on: what was read, or the empty string at end of input. */
  function InputLine(line: Option<string>): string
  {
    if line.Some? then line.value else ""
  }

  /** The transactions the attempts were made for, in attempt order. */
  function Attempted(attempts: seq<Attempt>): (ts: seq<Transaction>)
    ensures |ts| == |attempts|
    ensures forall i | 0 <= i < |attempts| :: ts[i] == attempts[i].transaction
  {
    if attempts == [] then []
    else Attempted(attempts[..|attempts| - 1]) + [attempts[|attempts| - 1].transaction]
  }

  /**
   * The print loop: one attempt per transaction, in order. An attempt that
   * throws (`fails`) is caught and recorded, and the loop goes on.
   */
  method PrintEach(sorted: seq<Transaction>, fails: Transaction -> bool) returns (attempts: seq<Attempt>)
    ensures |attempts| == |sorted|
    ensures forall i | 0 <= i < |sorted| :: attempts[i] == Attempt(sorted[i], !fails(sorted[i]))
    ensures Attempted(attempts) == sorted
  {
    attempts := [];
    for i := 0 to |sorted|
      invariant |attempts| == i
      invariant forall k | 0 <= k < i :: attempts[k] == Attempt(sorted[k], !fails(sorted[k]))
    {
      var t := sorted[i];
      if fails(t) {
        attempts := attempts + [Attempt(t, false)];
      } else {
        attempts := attempts + [Attempt(t, true)];
      }
    }
  }

  /**
   * One session: validate the line, look the identifier up, and print the
   * transactions found, earliest first. An exception from the lookup is
   * caught by the session's outer handler.
   */
  method Run(line: Option<string>, lookup: int -> Lookup, fails: Transaction -> bool)
    returns (outcome: Outcome)
    ensures outcome.InvalidInput? <==> IdInput.ValidateId(InputLine(line)).None?
    ensures line.None? ==> outcome.InvalidInput?
    ensures !outcome.InvalidInput? ==> Some(outcome.idApi) == IdInput.ValidateId(InputLine(line))
    ensures outcome.Failed? <==> !outcome.InvalidInput? && lookup(outcome.idApi).Threw?
    ensures outcome.NotFound? <==>
      !outcome.InvalidInput? && (lookup(outcome.idApi).NoList? || lookup(outcome.idApi) == Rows([]))
    ensures outcome.Processed? ==>
      && lookup(outcome.idApi).Rows?
      && Attempted(outcome.attempts) == Ordering.OrderByDate(lookup(outcome.idApi).rows)
      && forall i | 0 <= i < |outcome.attempts| ::
           outcome.attempts[i].completed == !fails(outcome.attempts[i].transaction)
  {
    var input := InputLine(line);
    var id := IdInput.ValidateId(input);
    if id.None? {
      return InvalidInput;
    }
    var found := lookup(id.value);
    match found
    case Threw =>
      outcome := Failed(id.value);
    case NoList =>
      outcome := NotFound(id.value);
    case Rows(rows) =>
      if rows == [] {
        outcome := NotFound(id.value);
      } else {
        var sorted := Ordering.OrderByDate(rows);
        var attempts := PrintEach(sorted, fails);
        outcome := Processed(id.value, attempts);
      }
  }
}
