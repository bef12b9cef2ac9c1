/**
 * Single-use assignment links (`POST /api/assignments/verify`): a student
 * presents a link; an unused assignment with that link is marked used and
 * the student joins it. The session and the request body are parameters.
 */
module AssignmentVerify {
  import opened Common

  /** A quiz assignment row: its link, whether the link was used, and the students who joined. */
  datatype LinkRecord = LinkRecord(id: nat, quizId: nat, shareableLink: string, isUsed: bool, students: set<nat>)

  /**
   * The session as `getServerSession()` returns it without the auth options:
   * any user id and role, unconstrained by the sign-in callbacks.
   */
  datatype SessionInfo = SessionInfo(userId: Option<string>, role: Option<string>)

  datatype VerifyResponse =
    | Verified(assignment: LinkRecord)
    | Rejected(status: nat, error: string)

  const Unauthorized := "Unauthorized"
  const InvalidLink := "Invalid or expired link"
  const VerifyFailed := "Failed to verify link"

  /** Only a signed-in STUDENT with a user id may verify a link. */
  predicate Authorized(session: Option<SessionInfo>) {
    session.Some? && session.value.userId.Some? && session.value.userId.value != ""
    && session.value.role == Some("STUDENT")
  }

  /** The longest run of digits at the start of `s`. */
  function LeadingDigits(s: string): (r: string)
    ensures r <= s && AllDigits(r)
    ensures |r| < |s| ==> !IsDigit(s[|r|])
  {
    if s == [] || !IsDigit(s[0]) then [] else [s[0]] + LeadingDigits(s[1..])
  }

  /** `parseInt` of a session id: the value of its leading digits, `None` (NaN) when there are none. */
  function ParseUserId(s: string): (r: Option<nat>)
    ensures r.Some? <==> s != [] && IsDigit(s[0])
    ensures r.Some? ==> r.value == DecimalValue(LeadingDigits(s))
  {
    var digits := LeadingDigits(s);
    if digits == [] then None else Some(DecimalValue(digits))
  }

  /** A decimal id reads back as itself. */
  lemma ParseUserIdOfDecimal(id: nat)
    ensures ParseUserId(NatToString(id)) == Some(id)
  {
    AllDigitsLeading(NatToString(id));
  }

  lemma {:induction false} AllDigitsLeading(s: string)
    requires AllDigits(s)
    ensures LeadingDigits(s) == s
  {
    if s != [] {
      AllDigitsLeading(s[1..]);
    }
  }

  /** Whether `a` is an assignment the lookup accepts for `link`. */
  predicate Unused(a: LinkRecord, link: string) {
    a.shareableLink == link && !a.isUsed
  }

  /**
   * The lookup as written: with the link absent from the body, the filter
   * on it drops out and the first unused assignment of any link matches.
   */
  function FirstUnusedAsWritten(assignments: seq<LinkRecord>, link: Option<string>): (r: Option<nat>)
    ensures r.Some? ==> r.value < |assignments| && !assignments[r.value].isUsed
    ensures r.Some? && link.Some? ==> Unused(assignments[r.value], link.value)
    ensures r.Some? ==> forall i :: 0 <= i < r.value ==>
      assignments[i].isUsed || (link.Some? && assignments[i].shareableLink != link.value)
    ensures r.None? ==> forall i :: 0 <= i < |assignments| ==>
      assignments[i].isUsed || (link.Some? && assignments[i].shareableLink != link.value)
    decreases |assignments|
  {
    if assignments == [] then None
    else if !assignments[0].isUsed && (link.None? || assignments[0].shareableLink == link.value) then Some(0)
    else
      var rest := FirstUnusedAsWritten(assignments[1..], link);
      if rest.Some? then Some(rest.value + 1) else None
  }

  /** A body without a link still consumes an assignment whenever any is unused. */
  lemma {:induction false} MissingLinkMatchesAnyUnused(assignments: seq<LinkRecord>, i: nat)
    requires i < |assignments| && !assignments[i].isUsed
    ensures FirstUnusedAsWritten(assignments, None).Some?
    ensures FirstUnusedAsWritten(assignments, None).value <= i
    ensures FirstUnused(assignments, None).None?
    decreases i
  {
    if i > 0 && assignments[0].isUsed {
      MissingLinkMatchesAnyUnused(assignments[1..], i - 1);
    }
  }

  /** The intended lookup: the first unused assignment with exactly this link; none without a link. */
  function FirstUnused(assignments: seq<LinkRecord>, link: Option<string>): (r: Option<nat>)
    ensures r.Some? ==> link.Some? && r.value < |assignments| && Unused(assignments[r.value], link.value)
    ensures r.Some? ==> forall j :: 0 <= j < r.value ==> !Unused(assignments[j], link.value)
    ensures r.None? ==> link.None? || forall i :: 0 <= i < |assignments| ==> !Unused(assignments[i], link.value)
  {
    if link.None? then None else FirstUnusedAsWritten(assignments, link)
  }

  /** Links are distinct across assignments. */
  predicate DistinctLinks(assignments: seq<LinkRecord>) {
    forall i, j :: 0 <= i < j < |assignments| ==> assignments[i].shareableLink != assignments[j].shareableLink
  }

  /** The assignment at `i` marked used, with `student` joined. */
  function Consumed(a: LinkRecord, student: nat): (r: LinkRecord)
    ensures r.isUsed && r.students == a.students + {student}
    ensures r.id == a.id && r.quizId == a.quizId && r.shareableLink == a.shareableLink
  {
    a.(isUsed := true, students := a.students + {student})
  }

  /** Once a link is consumed, presenting it again finds nothing. */
  lemma {:induction false} SecondVerificationFails(assignments: seq<LinkRecord>, link: string, student: nat)
    requires DistinctLinks(assignments)
    requires FirstUnused(assignments, Some(link)).Some?
    ensures var i := FirstUnused(assignments, Some(link)).value;
      FirstUnused(assignments[i := Consumed(assignments[i], student)], Some(link)).None?
  {
    var i := FirstUnused(assignments, Some(link)).value;
    var after := assignments[i := Consumed(assignments[i], student)];
    forall j | 0 <= j < |after|
      ensures !Unused(after[j], link)
    {
      if j != i {
        assert assignments[j].shareableLink != assignments[i].shareableLink;
      }
    }
  }

  /** The assignments and the ids of the users that exist. */
  class LinkStore {
    var assignments: seq<LinkRecord>
    var userIds: set<nat>

    ghost predicate Valid()
      reads this`assignments
    {
      DistinctLinks(assignments)
    }

    constructor (assignments: seq<LinkRecord>, userIds: set<nat>)
      requires DistinctLinks(assignments)
      ensures Valid() && this.assignments == assignments && this.userIds == userIds
    {
      this.assignments := assignments;
      this.userIds := userIds;
    }

    /**
     * `POST`: 401 without a student session; 400 when no unused
     * assignment carries the link; 500 when the session id is not a
     * number or names no user (the update is refused and nothing changes);
     * otherwise that one assignment is marked used with the student joined.
     */
    method Verify(session: Option<SessionInfo>, link: Option<string>) returns (response: VerifyResponse)
      requires Valid()
      modifies this`assignments
      ensures Valid()
      ensures !Authorized(session) ==> response == Rejected(401, Unauthorized) && assignments == old(assignments)
      ensures Authorized(session) && FirstUnused(old(assignments), link).None? ==>
        response == Rejected(400, InvalidLink) && assignments == old(assignments)
      ensures response.Verified? <==>
        && Authorized(session) && FirstUnused(old(assignments), link).Some?
        && ParseUserId(session.value.userId.value).Some?
        && ParseUserId(session.value.userId.value).value in userIds
      ensures response.Rejected? ==> assignments == old(assignments)
      ensures response.Verified? ==>
        var i := FirstUnused(old(assignments), link).value;
        var student := ParseUserId(session.value.userId.value).value;
        && assignments == old(assignments)[i := Consumed(old(assignments)[i], student)]
        && response.assignment == assignments[i]
    {
      if !Authorized(session) {
        return Rejected(401, Unauthorized);
      }
      var found := FirstUnused(assignments, link);
      if found.None? {
        return Rejected(400, InvalidLink);
      }
      var student := ParseUserId(session.value.userId.value);
      if student.None? || student.value !in userIds {
        return Rejected(500, VerifyFailed);
      }
      var i := found.value;
      assignments := assignments[i := Consumed(assignments[i], student.value)];
      response := Verified(assignments[i]);
    }
  }
}
