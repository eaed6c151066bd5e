/** The challenge and submission repository over an in-memory store: a
    challenges table and a submissions table. Instants are integer
    timestamps; an operational error of the store during a lookup is the
    flag `unavailable`. */
module Challenges {
  import opened Common
  import Users

  /** A row of the challenges table; `userId` is the creator. */
  datatype Challenge = Challenge(id: int, title: string, description: string, start: int, end: int, userId: int)

  /** A row of the submissions table; `kind` is the submission's type label. */
  datatype Submission = Submission(id: int, kind: string, link: string, description: string, userId: int, challengeId: int)

  /** A user argument: a raw id or an already resolved user. */
  datatype UserRef = UserId(id: int) | UserEntity(user: Users.User)

  /** A challenge argument: a raw id or an already resolved challenge. */
  datatype ChallengeRef = ChallengeId(id: int) | ChallengeEntity(challenge: Challenge)

  function UserIdOf(user: UserRef): (r: int)
  {
    match user
    case UserId(id) => id
    case UserEntity(u) => u.id
  }

  function ChallengeIdOf(challenge: ChallengeRef): (r: int)
  {
    match challenge
    case ChallengeId(id) => id
    case ChallengeEntity(c) => c.id
  }

  // ----- Lookups -----

  /** `get`: the first challenge row with id `challengeId`; none when there is
      no such row and also when the store fails. */
  function Get(challenges: seq<Challenge>, challengeId: int, unavailable: bool): (r: Option<Challenge>)
    ensures r.Some? ==> !unavailable && r.value.id == challengeId
    ensures r.Some? ==> exists i :: 0 <= i < |challenges| && challenges[i] == r.value && forall j :: 0 <= j < i ==> challenges[j].id != challengeId
    ensures r.None? <==> unavailable || forall c :: c in challenges ==> c.id != challengeId
  {
    if unavailable then None
    else match First(challenges, (c: Challenge) => c.id == challengeId)
      case None => None
      case Some(i) => Some(challenges[i])
  }

  /** The challenge's window, both ends included, contains `now`. */
  predicate ActiveAt(c: Challenge, now: int)
  {
    c.start <= now && now <= c.end
  }

  /** `get_active`: the first challenge row read, in insertion order, whose window
      contains `now`; none when no window does and also when the store fails. */
  function GetActive(challenges: seq<Challenge>, now: int, unavailable: bool): (r: Option<Challenge>)
    ensures r.Some? ==> !unavailable && r.value.start <= now && now <= r.value.end
    ensures r.Some? ==> exists i :: 0 <= i < |challenges| && challenges[i] == r.value && forall j :: 0 <= j < i ==> !ActiveAt(challenges[j], now)
    ensures r.None? <==> unavailable || forall c :: c in challenges ==> !ActiveAt(c, now)
  {
    if unavailable then None
    else match First(challenges, (c: Challenge) => ActiveAt(c, now))
      case None => None
      case Some(i) => Some(challenges[i])
  }

  /** The order of `get_all`: by start, then by end, ascending. */
  predicate ScheduledNoLater(a: Challenge, b: Challenge)
  {
    a.start < b.start || (a.start == b.start && a.end <= b.end)
  }

  predicate SortedBySchedule(s: seq<Challenge>)
  {
    forall i, j :: 0 <= i < j < |s| ==> ScheduledNoLater(s[i], s[j])
  }

  function InsertBySchedule(c: Challenge, s: seq<Challenge>): (r: seq<Challenge>)
    requires SortedBySchedule(s)
    ensures SortedBySchedule(r)
    ensures multiset(r) == multiset(s) + multiset{c}
  {
    if s == [] then [c]
    else if ScheduledNoLater(c, s[0]) then [c] + s
    else
      var rest := InsertBySchedule(c, s[1..]);
      assert s == [s[0]] + s[1..];
      assert forall x :: x in multiset(rest) ==> ScheduledNoLater(s[0], x) by {
        forall x | x in multiset(rest) ensures ScheduledNoLater(s[0], x) {
          assert x in multiset(s[1..]) || x == c;
        }
      }
      assert forall j :: 0 <= j < |rest| ==> rest[j] in multiset(rest);
      [s[0]] + rest
  }

  /** `get_all`: every challenge row, ordered by (start, end). */
  function GetAll(challenges: seq<Challenge>): (r: seq<Challenge>)
    ensures SortedBySchedule(r)
    ensures multiset(r) == multiset(challenges)
  {
    if challenges == [] then []
    else
      assert challenges == [challenges[0]] + challenges[1..];
      InsertBySchedule(challenges[0], GetAll(challenges[1..]))
  }

  /** `get_submissions`: the submission rows of one challenge, in insertion order. */
  function GetSubmissions(submissions: seq<Submission>, challengeId: int): (r: seq<Submission>)
    ensures |r| <= |submissions|
    ensures forall i :: 0 <= i < |r| ==> r[i] in submissions && r[i].challengeId == challengeId
    ensures forall s :: s in submissions && s.challengeId == challengeId ==> s in r
  {
    Filter(submissions, (s: Submission) => s.challengeId == challengeId)
  }

  // ----- Updates -----

  /** `update_submission`: the description of the rows with id
      `submissionId` becomes `description`; nothing else changes. */
  function SetDescription(submissions: seq<Submission>, submissionId: int, description: string): (r: seq<Submission>)
    ensures |r| == |submissions|
    ensures forall i :: 0 <= i < |r| ==>
      && r[i].id == submissions[i].id && r[i].kind == submissions[i].kind && r[i].link == submissions[i].link
      && r[i].userId == submissions[i].userId && r[i].challengeId == submissions[i].challengeId
      && r[i].description == (if submissions[i].id == submissionId then description else submissions[i].description)
  {
    seq(|submissions|, i requires 0 <= i < |submissions| =>
      if submissions[i].id == submissionId then submissions[i].(description := description) else submissions[i])
  }

  /** A value handed to `update` for one field. */
  datatype FieldValue = Text(text: string) | Stamp(time: int) | Number(number: int)

  /** Fields `update` never writes: the creation time, the id and the creator. */
  const Protected: set<string> := {"created", "id", "user_id"}

  /** The allow-list filter of `update`: every given field except the protected ones. */
  function ChangedFields(fields: map<string, FieldValue>): (r: map<string, FieldValue>)
    ensures r.Keys == fields.Keys - Protected
    ensures forall k :: k in r ==> r[k] == fields[k]
  {
    map k | k in fields && k !in Protected :: fields[k]
  }

  /** The value a challenge row holds in the column called `name`, if it has
      a writable column of that name. */
  function Column(c: Challenge, name: string): (value: Option<FieldValue>)
  {
    if name == "title" then Some(Text(c.title))
    else if name == "description" then Some(Text(c.description))
    else if name == "start" then Some(Stamp(c.start))
    else if name == "end" then Some(Stamp(c.end))
    else None
  }

  /** Every field names a writable column and carries a value of that column's kind. */
  predicate Writable(changed: map<string, FieldValue>)
  {
    forall k :: k in changed ==>
      || ((k == "title" || k == "description") && changed[k].Text?)
      || ((k == "start" || k == "end") && changed[k].Stamp?)
  }

  /** One challenge row with the changed fields written onto it. */
  function Patched(c: Challenge, changed: map<string, FieldValue>): (r: Challenge)
    requires Writable(changed)
    ensures r.id == c.id && r.userId == c.userId
    ensures forall k :: k in changed ==> Column(r, k) == Some(changed[k])
    ensures forall k :: k !in changed ==> Column(r, k) == Column(c, k)
  {
    c.(title := if "title" in changed then changed["title"].text else c.title,
       description := if "description" in changed then changed["description"].text else c.description,
       start := if "start" in changed then changed["start"].time else c.start,
       end := if "end" in changed then changed["end"].time else c.end)
  }

  /** The UPDATE statement of `update`: the rows with id `challengeId` are
      patched, every other row is left as it is. */
  function ApplyUpdate(challenges: seq<Challenge>, challengeId: int, changed: map<string, FieldValue>): (r: seq<Challenge>)
    requires Writable(changed)
    ensures |r| == |challenges|
    ensures forall i :: 0 <= i < |r| ==> r[i].id == challenges[i].id && r[i].userId == challenges[i].userId
    ensures forall i :: 0 <= i < |r| && challenges[i].id != challengeId ==> r[i] == challenges[i]
    ensures forall i :: 0 <= i < |r| && challenges[i].id == challengeId ==> r[i] == Patched(challenges[i], changed)
  {
    seq(|challenges|, i requires 0 <= i < |challenges| =>
      if challenges[i].id == challengeId then Patched(challenges[i], changed) else challenges[i])
  }

  // ----- Properties relating several operations -----

  /** A challenge appended with a fresh id is what `get` finds. */
  lemma GetFindsCreated(challenges: seq<Challenge>, c: Challenge)
    requires forall x :: x in challenges ==> x.id != c.id
    ensures Get(challenges + [c], c.id, false) == Some(c)
  {

  }

  /** Creating a submission appends it to its challenge's submission list
      and leaves every other challenge's list alone. */
  lemma GetSubmissionsAfterCreate(submissions: seq<Submission>, s: Submission, challengeId: int)
    ensures GetSubmissions(submissions + [s], challengeId)
         == GetSubmissions(submissions, challengeId) + (if s.challengeId == challengeId then [s] else [])
  {
    var p := (x: Submission) => x.challengeId == challengeId;
    FilterAppend(submissions, [s], p);
    assert [s][1..] == [];
  }

  /** Handing `update` a new id and a new title changes only the title. */
  lemma UpdateIgnoresId(challenges: seq<Challenge>, challengeId: int, title: string)
    ensures var changed := ChangedFields(map["id" := Number(999), "title" := Text(title)]);
            && Writable(changed)
            && forall i :: 0 <= i < |challenges| && challenges[i].id == challengeId ==>
                 ApplyUpdate(challenges, challengeId, changed)[i] == challenges[i].(title := title)
  {

  }

  /** `update_submission` on an id no row has changes nothing. */
  lemma UpdateSubmissionWithoutMatch(submissions: seq<Submission>, submissionId: int, description: string)
    requires forall s :: s in submissions ==> s.id != submissionId
    ensures SetDescription(submissions, submissionId, description) == submissions
  {

  }

  /** The challenges and submissions tables, with the counters standing in
      for the database's id assignment. */
  class ChallengeStore {
    var challenges: seq<Challenge>
    var submissions: seq<Submission>
    var nextChallengeId: int
    var nextSubmissionId: int

    /** Ids are distinct within each table and below the next id to hand out. */
    ghost predicate Valid()
      reads this
    {
      && (forall i, j :: 0 <= i < j < |challenges| ==> challenges[i].id != challenges[j].id)
      && (forall i :: 0 <= i < |challenges| ==> challenges[i].id < nextChallengeId)
      && (forall i, j :: 0 <= i < j < |submissions| ==> submissions[i].id != submissions[j].id)
      && (forall i :: 0 <= i < |submissions| ==> submissions[i].id < nextSubmissionId)
    }

    constructor ()
      ensures Valid()
      ensures challenges == [] && submissions == []
    {
      challenges, submissions := [], [];
      nextChallengeId, nextSubmissionId := 1, 1;
    }

    /** `create`: appends one challenge row holding the given values, the
        creator normalised to an id, and a fresh id. */
    method Create(title: string, description: string, start: int, end: int, user: UserRef)
      returns (c: Challenge)
      requires Valid()
      modifies this
      ensures Valid()
      ensures c == Challenge(old(nextChallengeId), title, description, start, end, c.userId)
      ensures user.UserId? ==> c.userId == user.id
      ensures user.UserEntity? ==> c.userId == user.user.id
      ensures forall x :: x in old(challenges) ==> x.id != c.id
      ensures challenges == old(challenges) + [c] && submissions == old(submissions)
      ensures nextChallengeId == old(nextChallengeId) + 1 && nextSubmissionId == old(nextSubmissionId)
    {
      c := Challenge(nextChallengeId, title, description, start, end, UserIdOf(user));
      challenges := challenges + [c];
      nextChallengeId := nextChallengeId + 1;
    }

    /** `create_submission`: appends one submission row holding the given
        values, user and challenge normalised to ids, and a fresh id. */
    method CreateSubmission(kind: string, link: string, description: string, challenge: ChallengeRef, user: UserRef)
      returns (s: Submission)
      requires Valid()
      modifies this
      ensures Valid()
      ensures s == Submission(old(nextSubmissionId), kind, link, description, s.userId, s.challengeId)
      ensures user.UserId? ==> s.userId == user.id
      ensures user.UserEntity? ==> s.userId == user.user.id
      ensures challenge.ChallengeId? ==> s.challengeId == challenge.id
      ensures challenge.ChallengeEntity? ==> s.challengeId == challenge.challenge.id
      ensures forall x :: x in old(submissions) ==> x.id != s.id
      ensures submissions == old(submissions) + [s] && challenges == old(challenges)
      ensures nextSubmissionId == old(nextSubmissionId) + 1 && nextChallengeId == old(nextChallengeId)
      ensures GetSubmissions(submissions, s.challengeId) == GetSubmissions(old(submissions), s.challengeId) + [s]
    {
      s := Submission(nextSubmissionId, kind, link, description, UserIdOf(user), ChallengeIdOf(challenge));
      GetSubmissionsAfterCreate(submissions, s, s.challengeId);
      submissions := submissions + [s];
      nextSubmissionId := nextSubmissionId + 1;
    }

    /** `update_submission`: sets the description of the submission with id
        `submissionId`; a no-op when there is none. */
    method UpdateSubmission(submissionId: int, description: string)
      requires Valid()
      modifies this
      ensures Valid()
      ensures submissions == SetDescription(old(submissions), submissionId, description)
      ensures challenges == old(challenges)
      ensures nextChallengeId == old(nextChallengeId) && nextSubmissionId == old(nextSubmissionId)
    {
      submissions := SetDescription(submissions, submissionId, description);
    }

    /** `update`: drops the protected fields and writes the rest onto the
        challenge with id `challengeId`. When a remaining field is not a
        writable column of the right kind the statement is refused
        (`committed` is false) and nothing changes. */
    method Update(challengeId: int, fields: map<string, FieldValue>) returns (committed: bool)
      requires Valid()
      modifies this
      ensures Valid()
      ensures committed == Writable(ChangedFields(fields))
      ensures committed ==> challenges == ApplyUpdate(old(challenges), challengeId, ChangedFields(fields))
      ensures !committed ==> challenges == old(challenges)
      ensures submissions == old(submissions)
      ensures nextChallengeId == old(nextChallengeId) && nextSubmissionId == old(nextSubmissionId)
    {
      var changed := ChangedFields(fields);
      committed := Writable(changed);
      if committed {
        challenges := ApplyUpdate(challenges, challengeId, changed);
      }
    }
  }
}
