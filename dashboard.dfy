/**
 * The dashboard's add-motor form: the effect that pre-fills a suggested id or
 * clears the inputs, and the submit handler with its early returns. The
 * database of provisioned motors is an abstract set of (motor id, company id)
 * pairs; whether its lookup and insert calls fail is a parameter.
 */
module Dashboard {
  import opened Wrappers
  import opened Registry
  import opened MotorIds
  import opened MotorsContext

  /** The characters `String.prototype.trim` removes: white space and line terminators. */
  const Blanks: set<char> := {
    '\t', '\n', '\U{000B}', '\U{000C}', '\r', ' ', '\U{00A0}', '\U{1680}',
    '\U{2000}', '\U{2001}', '\U{2002}', '\U{2003}', '\U{2004}', '\U{2005}',
    '\U{2006}', '\U{2007}', '\U{2008}', '\U{2009}', '\U{200A}',
    '\U{2028}', '\U{2029}', '\U{202F}', '\U{205F}', '\U{3000}', '\U{FEFF}'
  }

  /** A character `trim` removes. */
  predicate IsBlank(c: char) {
    c in Blanks
  }

  /** Nothing but white space (or nothing at all). */
  predicate Blank(s: string) {
    forall i | 0 <= i < |s| :: IsBlank(s[i])
  }

  /** Drop leading white space. */
  function TrimStart(s: string): (r: string)
    ensures |r| <= |s| && r == s[|s| - |r|..]
    ensures r == [] || !IsBlank(r[0])
    ensures forall i | 0 <= i < |s| - |r| :: IsBlank(s[i])
  {
    if s != [] && IsBlank(s[0]) then
      var r := TrimStart(s[1..]);
      assert forall i | 1 <= i < |s| - |r| :: s[i] == s[1..][i - 1];
      r
    else s
  }

  /** Drop trailing white space. */
  function TrimEnd(s: string): (r: string)
    ensures |r| <= |s| && r == s[..|r|]
    ensures r == [] || !IsBlank(r[|r| - 1])
    ensures forall i | |r| <= i < |s| :: IsBlank(s[i])
  {
    if s != [] && IsBlank(s[|s| - 1]) then TrimEnd(s[..|s| - 1]) else s
  }

  /** Where the trimmed text starts in `s`. */
  function TrimOffset(s: string): nat {
    |s| - |TrimStart(s)|
  }

  /** `String.prototype.trim`: what is left neither starts nor ends with a blank. */
  function Trim(s: string): (r: string)
    ensures |r| <= |s|
    ensures r == [] || (!IsBlank(r[0]) && !IsBlank(r[|r| - 1]))
  {
    var r := TrimEnd(TrimStart(s));
    assert r != [] ==> r[0] == TrimStart(s)[0];
    r
  }

  /** Trimming keeps the slice of `s` between a blank prefix and a blank suffix. */
  lemma TrimSlice(s: string)
    ensures TrimOffset(s) + |Trim(s)| <= |s|
    ensures Trim(s) == s[TrimOffset(s)..TrimOffset(s) + |Trim(s)|]
    ensures forall i | 0 <= i < TrimOffset(s) :: IsBlank(s[i])
    ensures forall i | TrimOffset(s) + |Trim(s)| <= i < |s| :: IsBlank(s[i])
  {
    var front := TrimStart(s);
    var a := |s| - |front|;
    assert TrimOffset(s) == a && Trim(s) == TrimEnd(front);
    assert front == s[a..];
    TrimEndOfSuffix(s, a);
  }

  /** Trimming the end of a suffix of `s` leaves a slice of `s` followed only by blanks. */
  lemma TrimEndOfSuffix(s: string, a: nat)
    requires a <= |s|
    ensures a + |TrimEnd(s[a..])| <= |s|
    ensures TrimEnd(s[a..]) == s[a..a + |TrimEnd(s[a..])|]
    ensures forall i | a + |TrimEnd(s[a..])| <= i < |s| :: IsBlank(s[i])
  {
    var front := s[a..];
    var r := TrimEnd(front);
    assert r == front[..|r|];
    forall i | a + |r| <= i < |s| ensures IsBlank(s[i]) {
      assert s[i] == front[i - a];
    }
  }

  /** Trimming leaves nothing exactly when every character is blank. */
  lemma TrimEmptyIffBlank(s: string)
    ensures Trim(s) == [] <==> Blank(s)
  {
    TrimSlice(s);
    var r := Trim(s);
    var a := TrimOffset(s);
    if r == [] {
      forall i | 0 <= i < |s| ensures IsBlank(s[i]) {
        if i >= a {
          assert a + |r| <= i;
        }
      }
    } else {
      assert s[a] == r[0];
    }
  }

  /** How a submission ended. */
  datatype SubmitOutcome = MissingField | LookupFailed | DuplicateId | InsertFailed | Added

  /** A database row's key: (motor id, company id). */
  type MotorKey = (string, string)

  /** The signed-in user's id when it is usable (JavaScript-truthy). */
  function CompanyOf(userId: Option<string>): Option<string> {
    if userId.Some? && userId.value != "" then userId else None
  }

  /** The submitted form, inputs already trimmed. */
  datatype Submission = Submission(motorId: string, motorName: string, location: string,
                                   company: Option<string>)

  /**
   * The form as the handler reads it: each input trimmed, so that a field is
   * empty exactly when its input was all blanks, and the company present
   * exactly when the user id is a non-empty string.
   */
  function Prepare(idInput: string, nameInput: string, locationInput: string,
                   userId: Option<string>): (sub: Submission)
    ensures sub.motorId == [] <==> Blank(idInput)
    ensures sub.motorName == [] <==> Blank(nameInput)
    ensures sub.location == [] <==> Blank(locationInput)
    ensures sub.company.Some? <==> userId.Some? && userId.value != ""
    ensures sub.company.Some? ==> sub.company == userId
  {
    TrimEmptyIffBlank(idInput);
    TrimEmptyIffBlank(nameInput);
    TrimEmptyIffBlank(locationInput);
    Submission(Trim(idInput), Trim(nameInput), Trim(locationInput), CompanyOf(userId))
  }

  predicate Complete(sub: Submission) {
    sub.motorId != "" && sub.motorName != "" && sub.location != "" && sub.company.Some?
  }

  /**
   * Which early return, if any, a submission takes. An incomplete form stops
   * before any database call; a duplicate is reported only when the lookup
   * succeeded and found the pair; the insert is attempted only for a new pair.
   */
  function SubmitDecision(sub: Submission, store: set<MotorKey>, lookupFails: bool,
                          insertFails: bool): (o: SubmitOutcome)
    ensures o == MissingField <==> !Complete(sub)
    ensures o == LookupFailed <==> Complete(sub) && lookupFails
    ensures o == DuplicateId <==>
              Complete(sub) && !lookupFails && (sub.motorId, sub.company.value) in store
    ensures o == Added <==>
              Complete(sub) && !lookupFails && !insertFails && (sub.motorId, sub.company.value) !in store
  {
    if !Complete(sub) then MissingField
    else if lookupFails then LookupFailed
    else if (sub.motorId, sub.company.value) in store then DuplicateId
    else if insertFails then InsertFailed
    else Added
  }

  /**
   * A submission is inserted exactly when every input has a non-blank
   * character, a user is signed in, the lookup and the insert succeed, and the
   * database holds no row with the same motor id for that company.
   */
  lemma AddedExactly(idInput: string, nameInput: string, locationInput: string,
                     userId: Option<string>, store: set<MotorKey>, lookupFails: bool, insertFails: bool)
    ensures var sub := Prepare(idInput, nameInput, locationInput, userId);
      SubmitDecision(sub, store, lookupFails, insertFails) == Added <==>
        && !Blank(idInput) && !Blank(nameInput) && !Blank(locationInput)
        && userId.Some? && userId.value != ""
        && !lookupFails && !insertFails
        && (Trim(idInput), userId.value) !in store
  {
  }

  /** An input of nothing but white space stops the submission, whatever else holds. */
  lemma BlankInputRejected(idInput: string, nameInput: string, locationInput: string,
                           userId: Option<string>, store: set<MotorKey>, lookupFails: bool, insertFails: bool)
    requires Blank(idInput) || Blank(nameInput) || Blank(locationInput)
    ensures SubmitDecision(Prepare(idInput, nameInput, locationInput, userId),
                           store, lookupFails, insertFails) == MissingField
  {
  }

  /** Once inserted, the same id for the same company is refused as a duplicate. */
  lemma InsertedThenDuplicate(sub: Submission, store: set<MotorKey>)
    requires SubmitDecision(sub, store, false, false) == Added
    ensures SubmitDecision(sub, store + {(sub.motorId, sub.company.value)}, false, false) == DuplicateId
  {
  }

  /** A row of the company's motors as the database returns it: (motor id, name, location). */
  type MotorRow = (string, string, string)

  /**
   * `fetchMotors` once its query has answered: every row is handed to the
   * provider's `addMotor`, in order. A failed query hands over no rows.
   */
  method FetchMotors(provider: MotorsProvider, rows: seq<MotorRow>)
    requires provider.Valid()
    modifies provider`motors
    ensures provider.Valid()
    ensures provider.motors == InsertAll(old(provider.motors), rows)
  {
    for i := 0 to |rows|
      invariant provider.Valid()
      invariant provider.motors == InsertAll(old(provider.motors), rows[..i])
    {
      InsertAllSnoc(old(provider.motors), rows[..i], rows[i]);
      assert rows[..i + 1] == rows[..i] + [rows[i]];
      provider.AddMotor(rows[i].0, rows[i].1, rows[i].2);
    }
    assert rows[..|rows|] == rows;
  }

  /**
   * When the re-fetch already returns the new row, the explicit add that
   * follows it is refused as a duplicate and changes nothing.
   */
  lemma RefetchedAddIsNoop(ms: seq<Motor>, refetched: seq<MotorRow>, id: string, name: string,
                           location: string)
    requires (id, name, location) in refetched
    ensures InsertMotor(InsertAll(ms, refetched), id, name, location) == InsertAll(ms, refetched)
  {
    InsertAllCovers(ms, refetched);
    var k :| 0 <= k < |refetched| && refetched[k] == (id, name, location);
    assert Clashes(InsertAll(ms, refetched), refetched[k].0, refetched[k].1);
    InsertClashingIsNoop(InsertAll(ms, refetched), id, name, location);
  }

  class AddMotorForm {
    var motorIdInput: string
    var motorNameInput: string
    var locationInput: string
    var showAddMotorForm: bool
    var userId: Option<string>

    /** Empty inputs, hidden form; the user id is the signed-in user's email, if any. */
    constructor(currentUserEmail: Option<string>)
      ensures motorIdInput == "" && motorNameInput == "" && locationInput == ""
      ensures !showAddMotorForm && userId == currentUserEmail
    {
      motorIdInput, motorNameInput, locationInput := "", "", "";
      showAddMotorForm := false;
      userId := currentUserEmail;
    }

    method SetShowForm(show: bool)
      modifies this`showAddMotorForm
      ensures showAddMotorForm == show
    {
      showAddMotorForm := show;
    }

    /**
     * The effect run when the form's visibility or the registry changes: an open
     * form gets a fresh suggested id; a closed form has its three inputs cleared.
     */
    method SyncInputs(motors: seq<Motor>)
      modifies this`motorIdInput, this`motorNameInput, this`locationInput
      ensures showAddMotorForm ==>
        && motorIdInput == SuggestId(IdsOf(motors))
        && motorNameInput == old(motorNameInput) && locationInput == old(locationInput)
      ensures showAddMotorForm ==> forall i | 0 <= i < |motors| :: motorIdInput != motors[i].id
      ensures !showAddMotorForm ==> motorIdInput == "" && motorNameInput == "" && locationInput == ""
    {
      if showAddMotorForm {
        SuggestionIsFresh(IdsOf(motors));
        motorIdInput := SuggestId(IdsOf(motors));
      } else {
        motorIdInput, motorNameInput, locationInput := "", "", "";
      }
    }

    /**
     * `handleAddMotor`: validate the trimmed inputs and the user, check the
     * database for the (id, company) pair, insert, add the motor to the
     * provider, then clear and hide the form. Every early return leaves the
     * database, the provider and the form as they were.
     */
    method Submit(provider: MotorsProvider, store: set<MotorKey>, lookupFails: bool, insertFails: bool,
                  refetched: seq<MotorRow>)
      returns (outcome: SubmitOutcome, newStore: set<MotorKey>)
      requires provider.Valid()
      modifies this`motorIdInput, this`motorNameInput, this`locationInput, this`showAddMotorForm
      modifies provider`motors
      ensures provider.Valid()
      ensures var sub := Prepare(old(motorIdInput), old(motorNameInput), old(locationInput), userId);
        && outcome == SubmitDecision(sub, store, lookupFails, insertFails)
        && (outcome != Added ==>
              && newStore == store && provider.motors == old(provider.motors)
              && motorIdInput == old(motorIdInput) && motorNameInput == old(motorNameInput)
              && locationInput == old(locationInput) && showAddMotorForm == old(showAddMotorForm))
        && (outcome == Added ==>
              && newStore == store + {(sub.motorId, sub.company.value)}
              && provider.motors == InsertMotor(InsertAll(old(provider.motors), refetched),
                                                sub.motorId, sub.motorName, sub.location)
              && motorIdInput == "" && motorNameInput == "" && locationInput == ""
              && !showAddMotorForm)
    {
      var sub := Prepare(motorIdInput, motorNameInput, locationInput, userId);
      outcome := SubmitDecision(sub, store, lookupFails, insertFails);
      if outcome == Added {
        newStore := store + {(sub.motorId, sub.company.value)};
        Commit(provider, refetched, sub.motorId, sub.motorName, sub.location);
      } else {
        newStore := store;
      }
    }

    /**
     * After a successful insert: re-fetch the company's motors into the
     * provider, add the new motor, then clear and hide the form.
     */
    method Commit(provider: MotorsProvider, refetched: seq<MotorRow>,
                  motorId: string, motorName: string, location: string)
      requires provider.Valid()
      modifies this`motorIdInput, this`motorNameInput, this`locationInput, this`showAddMotorForm
      modifies provider`motors
      ensures provider.Valid()
      ensures provider.motors ==
        InsertMotor(InsertAll(old(provider.motors), refetched), motorId, motorName, location)
      ensures motorIdInput == "" && motorNameInput == "" && locationInput == "" && !showAddMotorForm
    {
      FetchMotors(provider, refetched);
      provider.AddMotor(motorId, motorName, location);
      motorIdInput, motorNameInput, locationInput := "", "", "";
      showAddMotorForm := false;
    }
  }
}
