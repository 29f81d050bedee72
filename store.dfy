/**
 * The persisted rows of interviewhub/models.py as an in-memory database:
 * the users table (only ids: the user model itself is not part of this
 * model), the Question, Interview and Submission tables, and the two
 * association tables folded into each Interview row as sets.
 *
 * Every table is kept in its listing order, newest first, and timestamps
 * come from one monotone clock. The schema's rules are the invariant
 * `DbOk`: unique ids, newest-first order, the unique
 * (candidate, interview, question) triple, foreign keys that point at
 * existing rows, and the column bounds.
 */
module Store {
  import opened Wrappers
  import opened Models
  import opened Tables

  /** Why a write is refused. */
  datatype StoreError =
    | NotFound(field: string)     // a referenced row does not exist
    | TooLong(field: string)      // a text column over its max_length
    | OutOfRange(field: string)   // metric_score outside decimal(5, 2)
    | DuplicateAnswer             // the (candidate, interview, question) triple is taken

  /** The contents of all tables. */
  datatype Db = Db(
    users: set<UserId>,
    questions: seq<Question>,
    interviews: seq<Interview>,
    submissions: seq<Submission>)

  /** The clock and the next id of each table's sequence. */
  datatype Counters = Counters(
    clock: Timestamp,
    nextUser: nat,
    nextQuestion: nat,
    nextInterview: nat,
    nextSubmission: nat)

  // ---------------------------------------------------------------- the invariant

  function QuestionIds(qs: seq<Question>): set<QuestionId> {
    set q | q in qs :: q.id
  }

  function InterviewIds(ivs: seq<Interview>): set<InterviewId> {
    set iv | iv in ivs :: iv.id
  }

  /** The interviews owned by one of the users in `gu`. */
  function OwnedInterviews(ivs: seq<Interview>, gu: set<UserId>): set<InterviewId> {
    set iv | iv in ivs && iv.owner in gu :: iv.id
  }

  predicate KeyTaken(subs: seq<Submission>, key: (UserId, InterviewId, QuestionId)) {
    exists s :: s in subs && s.Key() == key
  }

  /** An earlier Question row is newer and has another id (the table lists newest first). */
  predicate QuestionsApart(a: Question, b: Question) {
    a.createdAt > b.createdAt && a.id != b.id
  }

  /** An earlier Interview row is newer and has another id (the table lists newest first). */
  predicate InterviewsApart(a: Interview, b: Interview) {
    a.createdAt > b.createdAt && a.id != b.id
  }

  /**
   * An earlier Submission row is newer, has another id and another
   * (candidate, interview, question) triple (the table lists newest first, and the triple is unique
   * table-wide).
   */
  predicate SubmissionsApart(a: Submission, b: Submission) {
    a.submittedAt > b.submittedAt && a.id != b.id && a.Key() != b.Key()
  }

  ghost predicate QuestionsOk(qs: seq<Question>, c: Counters) {
    && (forall q :: q in qs ==>
          q.id < c.nextQuestion && QuestionFieldsOk(q.fields) && q.createdAt <= q.updatedAt < c.clock)
    && Pairwise(qs, QuestionsApart)
  }

  ghost predicate InterviewsOk(ivs: seq<Interview>, users: set<UserId>, qids: set<QuestionId>, c: Counters) {
    && (forall iv :: iv in ivs ==>
          && iv.id < c.nextInterview
          && iv.owner in users
          && iv.fields.questions <= qids
          && iv.fields.allowedParticipants <= users
          && InterviewFieldsOk(iv.fields)
          && iv.createdAt <= iv.updatedAt < c.clock)
    && Pairwise(ivs, InterviewsApart)
  }

  ghost predicate SubmissionsOk(subs: seq<Submission>, users: set<UserId>, ivids: set<InterviewId>,
                                qids: set<QuestionId>, c: Counters) {
    && (forall s :: s in subs ==>
          && s.id < c.nextSubmission
          && s.candidate in users
          && s.interview in ivids
          && s.question in qids
          && SubmissionFieldsOk(s.fields)
          && s.submittedAt < c.clock)
    && Pairwise(subs, SubmissionsApart)
  }

  /** The schema's rules over the whole database. */
  ghost predicate DbOk(db: Db, c: Counters) {
    && (forall u :: u in db.users ==> u < c.nextUser)
    && QuestionsOk(db.questions, c)
    && InterviewsOk(db.interviews, db.users, QuestionIds(db.questions), c)
    && SubmissionsOk(db.submissions, db.users, InterviewIds(db.interviews), QuestionIds(db.questions), c)
  }

  /** What the invariant says about the listings: newest first, ids unique, triples unique. */
  lemma Listings(db: Db, c: Counters)
    requires DbOk(db, c)
    ensures forall i, j :: 0 <= i < j < |db.questions| ==>
      db.questions[i].createdAt > db.questions[j].createdAt && db.questions[i].id != db.questions[j].id
    ensures forall i, j :: 0 <= i < j < |db.interviews| ==>
      db.interviews[i].createdAt > db.interviews[j].createdAt && db.interviews[i].id != db.interviews[j].id
    ensures forall i, j :: 0 <= i < j < |db.submissions| ==>
      && db.submissions[i].submittedAt > db.submissions[j].submittedAt
      && db.submissions[i].id != db.submissions[j].id
      && db.submissions[i].Key() != db.submissions[j].Key()
  {
  }

  // ---------------------------------------------------------------- cascading deletes

  /** Each interview row with the association rows of the deleted users and questions removed. */
  function Unlinked(ivs: seq<Interview>, gu: set<UserId>, gq: set<QuestionId>): (r: seq<Interview>)
    ensures |r| == |ivs|
    ensures forall i :: 0 <= i < |ivs| ==>
      && r[i].fields.questions == ivs[i].fields.questions - gq
      && r[i].fields.allowedParticipants == ivs[i].fields.allowedParticipants - gu
      && r[i].fields.questions !! gq && r[i].fields.allowedParticipants !! gu
    ensures forall i :: 0 <= i < |ivs| ==> r[i].(fields := ivs[i].fields) == ivs[i]
    ensures forall i :: 0 <= i < |ivs| ==>
      r[i].fields.(questions := ivs[i].fields.questions,
                   allowedParticipants := ivs[i].fields.allowedParticipants) == ivs[i].fields
  {
    seq(|ivs|, i requires 0 <= i < |ivs| => ivs[i].Unlink(gu, gq))
  }

  lemma UnlinkedMembers(ivs: seq<Interview>, gu: set<UserId>, gq: set<QuestionId>)
    ensures forall w :: w in ivs ==> w.Unlink(gu, gq) in Unlinked(ivs, gu, gq)
    ensures forall x :: x in Unlinked(ivs, gu, gq) ==> exists w :: w in ivs && x == w.Unlink(gu, gq)
  {
    var r := Unlinked(ivs, gu, gq);
    forall w | w in ivs ensures w.Unlink(gu, gq) in r {
      var k :| 0 <= k < |ivs| && ivs[k] == w;
      assert r[k] == w.Unlink(gu, gq);
    }
    forall x | x in r ensures exists w :: w in ivs && x == w.Unlink(gu, gq) {
      var k :| 0 <= k < |r| && r[k] == x;
      assert ivs[k] in ivs;
    }
  }

  /** The Question table after the questions in `gq` are deleted. */
  function CascadeQuestions(qs: seq<Question>, gq: set<QuestionId>): (r: seq<Question>)
    ensures forall q :: q in r <==> q in qs && q.id !in gq
    ensures QuestionIds(r) == QuestionIds(qs) - gq
  {
    var r := Filter(qs, (q: Question) => q.id !in gq);
    assert forall id :: id in QuestionIds(qs) - gq ==> id in QuestionIds(r) by {
      forall id | id in QuestionIds(qs) - gq ensures id in QuestionIds(r) {
        var q :| q in qs && q.id == id;
        assert q in r;
      }
    }
    r
  }

  /**
   * The Interview table after the users in `gu` and the interviews in `gi`
   * are deleted: an interview goes when it is deleted itself or its owner
   * is (on_delete=CASCADE on owner); the others lose their links to deleted
   * users and questions.
   */
  function CascadeInterviews(ivs: seq<Interview>, gu: set<UserId>, gi: set<InterviewId>, gq: set<QuestionId>)
    : (r: seq<Interview>)
    ensures |r| <= |ivs|
    ensures forall x :: x in r <==> x in Unlinked(ivs, gu, gq) && x.id !in gi && x.owner !in gu
  {
    Filter(Unlinked(ivs, gu, gq), (w: Interview) => w.id !in gi && w.owner !in gu)
  }

  /**
   * The Submission table after the deletes: a submission goes exactly when
   * its candidate, its interview or its question goes (on_delete=CASCADE on
   * all three).
   */
  function CascadeSubmissions(subs: seq<Submission>, gu: set<UserId>, gi: set<InterviewId>, gq: set<QuestionId>)
    : (r: seq<Submission>)
    ensures |r| <= |subs|
    ensures forall s :: s in r <==> s in subs && s.candidate !in gu && s.interview !in gi && s.question !in gq
  {
    Filter(subs, (s: Submission) => s.candidate !in gu && s.interview !in gi && s.question !in gq)
  }

  /** The whole database after deleting the users `gu`, the interviews `gi` and the questions `gq`. */
  function Cascade(db: Db, gu: set<UserId>, gi: set<InterviewId>, gq: set<QuestionId>): (r: Db)
    ensures r.users == db.users - gu
    ensures forall q :: q in r.questions <==> q in db.questions && q.id !in gq
    ensures forall w :: w in r.interviews ==>
      w.id !in gi && w.owner !in gu && w.fields.questions !! gq && w.fields.allowedParticipants !! gu
    ensures forall s :: s in r.submissions <==>
      s in db.submissions && s.candidate !in gu && s.interview !in gi && s.question !in gq
  {
    Db(db.users - gu,
       CascadeQuestions(db.questions, gq),
       CascadeInterviews(db.interviews, gu, gi, gq),
       CascadeSubmissions(db.submissions, gu, gi, gq))
  }

  /** The interview ids left after a cascade. */
  lemma CascadeInterviewIds(ivs: seq<Interview>, gu: set<UserId>, gi: set<InterviewId>, gq: set<QuestionId>)
    requires OwnedInterviews(ivs, gu) <= gi
    ensures InterviewIds(CascadeInterviews(ivs, gu, gi, gq)) == InterviewIds(ivs) - gi
  {
    var r := CascadeInterviews(ivs, gu, gi, gq);
    UnlinkedMembers(ivs, gu, gq);
    forall id | id in InterviewIds(ivs) - gi ensures id in InterviewIds(r) {
      var w :| w in ivs && w.id == id;
      assert w.owner !in gu;
      assert w.Unlink(gu, gq) in r;
    }
    forall id | id in InterviewIds(r) ensures id in InterviewIds(ivs) - gi {
      var x :| x in r && x.id == id;
      var w :| w in ivs && x == w.Unlink(gu, gq);
    }
  }

  /**
   * Deleting users (with the interviews they own), interviews and questions
   * keeps every rule of the schema: in particular no remaining row points at
   * a deleted one, and the order and uniqueness of every table survive.
   */
  lemma {:induction false} CascadeKeepsOk(db: Db, c: Counters, gu: set<UserId>, gi: set<InterviewId>,
                                          gq: set<QuestionId>)
    requires DbOk(db, c)
    requires OwnedInterviews(db.interviews, gu) <= gi
    ensures DbOk(Cascade(db, gu, gi, gq), c)
  {
    var db' := Cascade(db, gu, gi, gq);
    var u := Unlinked(db.interviews, gu, gq);
    FilterPairwise(db.questions, (q: Question) => q.id !in gq, QuestionsApart);
    FilterPairwise(db.submissions,
      (s: Submission) => s.candidate !in gu && s.interview !in gi && s.question !in gq, SubmissionsApart);
    assert Pairwise(u, InterviewsApart) by {
      forall i, j | 0 <= i < j < |u| ensures InterviewsApart(u[i], u[j]) {
        assert InterviewsApart(db.interviews[i], db.interviews[j]);
      }
    }
    FilterPairwise(u, (w: Interview) => w.id !in gi && w.owner !in gu, InterviewsApart);
    CascadeInterviewIds(db.interviews, gu, gi, gq);
    UnlinkedMembers(db.interviews, gu, gq);
    assert QuestionsOk(db'.questions, c);
    assert InterviewsOk(db'.interviews, db'.users, QuestionIds(db'.questions), c) by {
      forall x | x in db'.interviews
        ensures x.owner in db'.users && x.fields.questions <= QuestionIds(db'.questions)
        ensures x.fields.allowedParticipants <= db'.users
        ensures x.id < c.nextInterview && InterviewFieldsOk(x.fields) && x.createdAt <= x.updatedAt < c.clock
      {
        var w :| w in db.interviews && x == w.Unlink(gu, gq);
      }
    }
  }

  /** Deleting rows that do not exist changes nothing. */
  lemma CascadeOfAbsentRows(db: Db, c: Counters, gu: set<UserId>, gi: set<InterviewId>, gq: set<QuestionId>)
    requires DbOk(db, c)
    requires gu !! db.users && gi !! InterviewIds(db.interviews) && gq !! QuestionIds(db.questions)
    ensures Cascade(db, gu, gi, gq) == db
  {
    FilterKeepsAll(db.questions, (q: Question) => q.id !in gq);
    assert CascadeSubmissions(db.submissions, gu, gi, gq) == db.submissions by {
      FilterKeepsAll(db.submissions,
        (s: Submission) => s.candidate !in gu && s.interview !in gi && s.question !in gq);
    }
    AbsentInterviewsStay(db.interviews, db.users, QuestionIds(db.questions), c, gu, gi, gq);
  }

  lemma AbsentInterviewsStay(ivs: seq<Interview>, users: set<UserId>, qids: set<QuestionId>, c: Counters,
                             gu: set<UserId>, gi: set<InterviewId>, gq: set<QuestionId>)
    requires InterviewsOk(ivs, users, qids, c)
    requires gu !! users && gi !! InterviewIds(ivs) && gq !! qids
    ensures CascadeInterviews(ivs, gu, gi, gq) == ivs
  {
    var u := Unlinked(ivs, gu, gq);
    forall i | 0 <= i < |u| ensures u[i] == ivs[i] {
      assert ivs[i] in ivs;
    }
    assert u == ivs;
    UnlinkedMembers(ivs, gu, gq);
    FilterKeepsAll(u, (w: Interview) => w.id !in gi && w.owner !in gu);
  }

  // ---------------------------------------------------------------- inserts and saves

  /** A new user takes the next id of the users' sequence. */
  lemma AddUserKeepsOk(db: Db, c: Counters)
    requires DbOk(db, c)
    ensures c.nextUser !in db.users
    ensures DbOk(db.(users := db.users + {c.nextUser}), c.(nextUser := c.nextUser + 1))
  {
  }

  /** A new question row, created now, goes to the front of the Question table. */
  lemma InsertQuestionKeepsOk(db: Db, c: Counters, f: QuestionFields)
    requires DbOk(db, c)
    requires QuestionFieldsOk(f)
    ensures c.nextQuestion !in QuestionIds(db.questions)
    ensures DbOk(db.(questions := [Question(c.nextQuestion, f, c.clock, c.clock)] + db.questions),
                 c.(clock := c.clock + 1, nextQuestion := c.nextQuestion + 1))
  {
    var row := Question(c.nextQuestion, f, c.clock, c.clock);
    PrependPairwise(row, db.questions, QuestionsApart);
    assert QuestionIds([row] + db.questions) == QuestionIds(db.questions) + {row.id};
  }

  /** Saving a question rewrites its columns and refreshes updated_at; its place in the listing stays. */
  lemma SaveQuestionKeepsOk(db: Db, c: Counters, i: nat, f: QuestionFields)
    requires DbOk(db, c)
    requires i < |db.questions| && QuestionFieldsOk(f)
    ensures DbOk(db.(questions := db.questions[i := db.questions[i].(fields := f, updatedAt := c.clock)]),
                 c.(clock := c.clock + 1))
  {
    var qs := db.questions;
    var qs' := qs[i := qs[i].(fields := f, updatedAt := c.clock)];
    assert QuestionIds(qs') == QuestionIds(qs) by {
      assert forall k :: 0 <= k < |qs| ==> qs'[k].id == qs[k].id;
      forall id | id in QuestionIds(qs) ensures id in QuestionIds(qs') {
        var q :| q in qs && q.id == id;
        var k :| 0 <= k < |qs| && qs[k] == q;
        assert qs'[k] in qs';
      }
      forall id | id in QuestionIds(qs') ensures id in QuestionIds(qs) {
        var q :| q in qs' && q.id == id;
        var k :| 0 <= k < |qs'| && qs'[k] == q;
        assert qs[k] in qs;
      }
    }
    assert Pairwise(qs', QuestionsApart) by {
      forall a, b | 0 <= a < b < |qs'| ensures QuestionsApart(qs'[a], qs'[b]) {
        assert QuestionsApart(qs[a], qs[b]);
      }
    }
    forall q | q in qs' ensures q.createdAt <= q.updatedAt < c.clock + 1 {
      var k :| 0 <= k < |qs'| && qs'[k] == q;
      assert qs[k] in qs;
    }
  }

  /** The columns a new or saved interview must have for the references and bounds to hold. */
  predicate InterviewWritable(db: Db, owner: UserId, f: InterviewFields) {
    && owner in db.users
    && f.questions <= QuestionIds(db.questions)
    && f.allowedParticipants <= db.users
    && InterviewFieldsOk(f)
  }

  lemma InsertInterviewKeepsOk(db: Db, c: Counters, owner: UserId, f: InterviewFields)
    requires DbOk(db, c)
    requires InterviewWritable(db, owner, f)
    ensures c.nextInterview !in InterviewIds(db.interviews)
    ensures DbOk(db.(interviews := [Interview(c.nextInterview, owner, f, c.clock, c.clock)] + db.interviews),
                 c.(clock := c.clock + 1, nextInterview := c.nextInterview + 1))
  {
    var row := Interview(c.nextInterview, owner, f, c.clock, c.clock);
    PrependPairwise(row, db.interviews, InterviewsApart);
    assert InterviewIds([row] + db.interviews) == InterviewIds(db.interviews) + {row.id};
  }

  /** Saving an interview rewrites its columns (the question set is replaced whole) and refreshes updated_at. */
  lemma SaveInterviewKeepsOk(db: Db, c: Counters, i: nat, f: InterviewFields)
    requires DbOk(db, c)
    requires i < |db.interviews| && InterviewWritable(db, db.interviews[i].owner, f)
    ensures DbOk(db.(interviews := db.interviews[i := db.interviews[i].(fields := f, updatedAt := c.clock)]),
                 c.(clock := c.clock + 1))
  {
    var ivs := db.interviews;
    var ivs' := ivs[i := ivs[i].(fields := f, updatedAt := c.clock)];
    assert InterviewIds(ivs') == InterviewIds(ivs) by {
      forall id | id in InterviewIds(ivs) ensures id in InterviewIds(ivs') {
        var w :| w in ivs && w.id == id;
        var k :| 0 <= k < |ivs| && ivs[k] == w;
        assert ivs'[k] in ivs';
      }
      forall id | id in InterviewIds(ivs') ensures id in InterviewIds(ivs) {
        var w :| w in ivs' && w.id == id;
        var k :| 0 <= k < |ivs'| && ivs'[k] == w;
        assert ivs[k] in ivs;
      }
    }
    assert Pairwise(ivs', InterviewsApart) by {
      forall a, b | 0 <= a < b < |ivs'| ensures InterviewsApart(ivs'[a], ivs'[b]) {
        assert InterviewsApart(ivs[a], ivs[b]);
      }
    }
    forall w | w in ivs'
      ensures w.id < c.nextInterview && w.owner in db.users && w.fields.questions <= QuestionIds(db.questions)
      ensures w.fields.allowedParticipants <= db.users && InterviewFieldsOk(w.fields)
      ensures w.createdAt <= w.updatedAt < c.clock + 1
    {
      var k :| 0 <= k < |ivs'| && ivs'[k] == w;
      assert ivs[k] in ivs;
    }
  }

  /** The references and bounds a new submission must satisfy, its triple aside. */
  predicate SubmissionWritable(db: Db, candidate: UserId, interview: InterviewId, question: QuestionId,
                               f: SubmissionFields) {
    && candidate in db.users
    && interview in InterviewIds(db.interviews)
    && question in QuestionIds(db.questions)
    && SubmissionFieldsOk(f)
  }

  /** A new submission whose triple is free goes to the front, and all triples stay pairwise distinct. */
  lemma InsertSubmissionKeepsOk(db: Db, c: Counters, candidate: UserId, interview: InterviewId,
                                question: QuestionId, f: SubmissionFields)
    requires DbOk(db, c)
    requires SubmissionWritable(db, candidate, interview, question, f)
    requires !KeyTaken(db.submissions, (candidate, interview, question))
    ensures DbOk(db.(submissions := [Submission(c.nextSubmission, candidate, interview, question, f, c.clock)]
                                    + db.submissions),
                 c.(clock := c.clock + 1, nextSubmission := c.nextSubmission + 1))
  {
    var row := Submission(c.nextSubmission, candidate, interview, question, f, c.clock);
    PrependPairwise(row, db.submissions, SubmissionsApart);
  }

  /** A cascade that deletes no interview and no owner keeps every interview row, each one unlinked. */
  lemma CascadeInterviewsKeepAll(ivs: seq<Interview>, gu: set<UserId>, gi: set<InterviewId>, gq: set<QuestionId>)
    requires forall w :: w in ivs ==> w.id !in gi && w.owner !in gu
    ensures CascadeInterviews(ivs, gu, gi, gq) == Unlinked(ivs, gu, gq)
  {
    UnlinkedMembers(ivs, gu, gq);
    FilterKeepsAll(Unlinked(ivs, gu, gq), (w: Interview) => w.id !in gi && w.owner !in gu);
  }

  /** A cascade that deletes none of the table's questions keeps the Question table. */
  lemma CascadeQuestionsKeepAll(qs: seq<Question>, gq: set<QuestionId>)
    requires forall q :: q in qs ==> q.id !in gq
    ensures CascadeQuestions(qs, gq) == qs
  {
    FilterKeepsAll(qs, (q: Question) => q.id !in gq);
  }

  /** Deleting interview `id` removes exactly that interview and the submissions to it. */
  lemma DeleteInterviewEffect(db: Db, id: InterviewId)
    ensures Cascade(db, {}, {id}, {}).users == db.users
    ensures Cascade(db, {}, {id}, {}).questions == db.questions
    ensures forall iv :: iv in Cascade(db, {}, {id}, {}).interviews <==> iv in db.interviews && iv.id != id
    ensures InterviewIds(Cascade(db, {}, {id}, {}).interviews) == InterviewIds(db.interviews) - {id}
    ensures forall s :: s in Cascade(db, {}, {id}, {}).submissions <==> s in db.submissions && s.interview != id
  {
    CascadeQuestionsKeepAll(db.questions, {});
    CascadeInterviewIds(db.interviews, {}, {id}, {});
    forall w: Interview ensures w.Unlink({}, {}) == w {
      assert w.Unlink({}, {}).fields.questions == w.fields.questions;
      assert w.Unlink({}, {}).fields.allowedParticipants == w.fields.allowedParticipants;
    }
  }

  /** Deleting question `id` removes it and the submissions to it; the interviews only lose the link. */
  lemma DeleteQuestionEffect(db: Db, id: QuestionId)
    ensures Cascade(db, {}, {}, {id}).users == db.users
    ensures forall q :: q in Cascade(db, {}, {}, {id}).questions <==> q in db.questions && q.id != id
    ensures |Cascade(db, {}, {}, {id}).interviews| == |db.interviews|
    ensures forall i :: 0 <= i < |db.interviews| ==>
      Cascade(db, {}, {}, {id}).interviews[i] == db.interviews[i].Unlink({}, {id})
    ensures forall s :: s in Cascade(db, {}, {}, {id}).submissions <==> s in db.submissions && s.question != id
  {
    CascadeInterviewsKeepAll(db.interviews, {}, {}, {id});
  }

  /**
   * Deleting user `u` removes the account, the interviews `u` owns, and the
   * submissions that are `u`'s or that answer those interviews; no remaining
   * interview lists `u` as a participant.
   */
  lemma DeleteUserEffect(db: Db, u: UserId)
    ensures Cascade(db, {u}, OwnedInterviews(db.interviews, {u}), {}).users == db.users - {u}
    ensures Cascade(db, {u}, OwnedInterviews(db.interviews, {u}), {}).questions == db.questions
    ensures InterviewIds(Cascade(db, {u}, OwnedInterviews(db.interviews, {u}), {}).interviews)
            == InterviewIds(db.interviews) - OwnedInterviews(db.interviews, {u})
    ensures forall iv :: iv in Cascade(db, {u}, OwnedInterviews(db.interviews, {u}), {}).interviews ==>
      iv.owner != u && u !in iv.fields.allowedParticipants
    ensures forall s :: s in Cascade(db, {u}, OwnedInterviews(db.interviews, {u}), {}).submissions <==>
      s in db.submissions && s.candidate != u && s.interview !in OwnedInterviews(db.interviews, {u})
  {
    var gi := OwnedInterviews(db.interviews, {u});
    CascadeQuestionsKeepAll(db.questions, {});
    CascadeInterviewIds(db.interviews, {u}, gi, {});
    forall iv | iv in CascadeInterviews(db.interviews, {u}, gi, {})
      ensures iv.owner != u && u !in iv.fields.allowedParticipants
    {
      var w :| w in db.interviews && w.id !in gi && w.owner !in {u} && iv == w.Unlink({u}, {});
    }
  }

  /** A user who does not exist owns no interview. */
  lemma AbsentUserOwnsNothing(db: Db, c: Counters, u: UserId)
    requires DbOk(db, c)
    requires u !in db.users
    ensures OwnedInterviews(db.interviews, {u}) == {}
  {
  }

  /**
   * What every delete needs: the cascade keeps the schema, and a cascade
   * whose roots are all absent changes nothing.
   */
  lemma CascadeStep(db: Db, c: Counters, gu: set<UserId>, gi: set<InterviewId>, gq: set<QuestionId>)
    requires DbOk(db, c)
    requires OwnedInterviews(db.interviews, gu) <= gi
    ensures DbOk(Cascade(db, gu, gi, gq), c)
    ensures gu !! db.users && gi !! InterviewIds(db.interviews) && gq !! QuestionIds(db.questions) ==>
              Cascade(db, gu, gi, gq) == db
  {
    CascadeKeepsOk(db, c, gu, gi, gq);
    if gu !! db.users && gi !! InterviewIds(db.interviews) && gq !! QuestionIds(db.questions) {
      CascadeOfAbsentRows(db, c, gu, gi, gq);
    }
  }

  // ---------------------------------------------------------------- the database

  class Database {
    var users: set<UserId>
    var questions: seq<Question>
    var interviews: seq<Interview>
    var submissions: seq<Submission>
    var clock: Timestamp
    var nextUser: nat
    var nextQuestion: nat
    var nextInterview: nat
    var nextSubmission: nat

    function Snapshot(): Db
      reads this
    {
      Db(users, questions, interviews, submissions)
    }

    function Counts(): Counters
      reads this
    {
      Counters(clock, nextUser, nextQuestion, nextInterview, nextSubmission)
    }

    ghost predicate Valid()
      reads this
    {
      DbOk(Snapshot(), Counts())
    }

    constructor ()
      ensures Valid()
      ensures users == {} && questions == [] && interviews == [] && submissions == []
    {
      users, questions, interviews, submissions := {}, [], [], [];
      clock, nextUser, nextQuestion, nextInterview, nextSubmission := 0, 0, 0, 0, 0;
    }

    /** Replaces the whole state by next and c, a state already known to keep the schema. */
    method Commit(next: Db, c: Counters)
      requires DbOk(next, c)
      modifies this
      ensures Snapshot() == next && Counts() == c
      ensures Valid()
    {
      users, questions, interviews, submissions := next.users, next.questions, next.interviews, next.submissions;
      clock, nextUser, nextQuestion, nextInterview, nextSubmission :=
        c.clock, c.nextUser, c.nextQuestion, c.nextInterview, c.nextSubmission;
    }

    /** A user account, as the authentication system creates it. */
    method CreateUser() returns (u: UserId)
      requires Valid()
      modifies this
      ensures Valid()
      ensures u !in old(users) && users == old(users) + {u}
      ensures questions == old(questions) && interviews == old(interviews) && submissions == old(submissions)
    {
      AddUserKeepsOk(Snapshot(), Counts());
      u := nextUser;
      users := users + {u};
      nextUser := nextUser + 1;
    }

    /** Creating a question row: refused when the title is over 200 characters. */
    method InsertQuestion(f: QuestionFields) returns (r: Result<QuestionId, StoreError>)
      requires Valid()
      modifies this
      ensures Valid()
      ensures r.Success? <==> QuestionFieldsOk(f)
      ensures r.Failure? ==> r.error == TooLong("title") && Snapshot() == old(Snapshot())
      ensures r.Success? ==> r.value !in QuestionIds(old(questions))
      ensures r.Success? ==> questions == [Question(r.value, f, old(clock), old(clock))] + old(questions)
      ensures users == old(users) && interviews == old(interviews) && submissions == old(submissions)
    {
      if !QuestionFieldsOk(f) {
        return Failure(TooLong("title"));
      }
      InsertQuestionKeepsOk(Snapshot(), Counts(), f);
      var id := nextQuestion;
      questions := [Question(id, f, clock, clock)] + questions;
      nextQuestion, clock := nextQuestion + 1, clock + 1;
      r := Success(id);
    }

    /** Saving a changed question row: updated_at is refreshed, created_at and the order stay. */
    method SaveQuestion(id: QuestionId, f: QuestionFields) returns (r: Result<(), StoreError>)
      requires Valid()
      modifies this
      ensures Valid()
      ensures id !in QuestionIds(old(questions)) ==> r == Failure(NotFound("question"))
      ensures id in QuestionIds(old(questions)) && !QuestionFieldsOk(f) ==> r == Failure(TooLong("title"))
      ensures r.Success? <==> id in QuestionIds(old(questions)) && QuestionFieldsOk(f)
      ensures r.Failure? ==> Snapshot() == old(Snapshot())
      ensures r.Success? ==> |questions| == |old(questions)| && forall i :: 0 <= i < |questions| ==>
        questions[i] == if old(questions)[i].id == id
                        then old(questions)[i].(fields := f, updatedAt := old(clock))
                        else old(questions)[i]
      ensures users == old(users) && interviews == old(interviews) && submissions == old(submissions)
    {
      var found := IndexWhere(questions, (q: Question) => q.id == id);
      if found.None? {
        return Failure(NotFound("question"));
      }
      if !QuestionFieldsOk(f) {
        return Failure(TooLong("title"));
      }
      var i := found.value;
      SaveQuestionKeepsOk(Snapshot(), Counts(), i, f);
      Listings(Snapshot(), Counts());
      Commit(Snapshot().(questions := questions[i := questions[i].(fields := f, updatedAt := clock)]),
             Counts().(clock := clock + 1));
      r := Success(());
    }

    /**
     * Creating an interview row with its question and
     * participant sets: refused when the owner, a question or a participant
     * does not exist, or a text column is over its bound.
     */
    method InsertInterview(owner: UserId, f: InterviewFields) returns (r: Result<InterviewId, StoreError>)
      requires Valid()
      modifies this
      ensures Valid()
      ensures r.Success? <==> InterviewWritable(old(Snapshot()), owner, f)
      ensures owner !in old(users) ==> r == Failure(NotFound("owner"))
      ensures r.Failure? ==> Snapshot() == old(Snapshot())
      ensures r.Success? ==> r.value !in InterviewIds(old(interviews))
      ensures r.Success? ==> interviews == [Interview(r.value, owner, f, old(clock), old(clock))] + old(interviews)
      ensures users == old(users) && questions == old(questions) && submissions == old(submissions)
    {
      if owner !in users {
        return Failure(NotFound("owner"));
      }
      if !(f.questions <= QuestionIds(questions)) {
        return Failure(NotFound("questions"));
      }
      if !(f.allowedParticipants <= users) {
        return Failure(NotFound("allowed_participants"));
      }
      if |f.title| > TITLE_MAX_LENGTH {
        return Failure(TooLong("title"));
      }
      if |f.projectCode| > PROJECT_CODE_MAX_LENGTH {
        return Failure(TooLong("project_code"));
      }
      InsertInterviewKeepsOk(Snapshot(), Counts(), owner, f);
      var id := nextInterview;
      interviews := [Interview(id, owner, f, clock, clock)] + interviews;
      nextInterview, clock := nextInterview + 1, clock + 1;
      r := Success(id);
    }

    /** Saving a changed interview row; the owner is never rewritten. */
    method SaveInterview(id: InterviewId, f: InterviewFields) returns (r: Result<(), StoreError>)
      requires Valid()
      modifies this
      ensures Valid()
      ensures id !in InterviewIds(old(interviews)) ==> r == Failure(NotFound("interview"))
      ensures r.Failure? ==> Snapshot() == old(Snapshot())
      ensures r.Success? ==> |interviews| == |old(interviews)| && forall i :: 0 <= i < |interviews| ==>
        interviews[i] == if old(interviews)[i].id == id
                         then old(interviews)[i].(fields := f, updatedAt := old(clock))
                         else old(interviews)[i]
      ensures r.Success? <==> exists iv :: iv in old(interviews) && iv.id == id
                                          && InterviewWritable(old(Snapshot()), iv.owner, f)
      ensures users == old(users) && questions == old(questions) && submissions == old(submissions)
    {
      var found := IndexWhere(interviews, (w: Interview) => w.id == id);
      if found.None? {
        return Failure(NotFound("interview"));
      }
      var i := found.value;
      Listings(Snapshot(), Counts());
      if !(f.questions <= QuestionIds(questions)) {
        return Failure(NotFound("questions"));
      }
      if !(f.allowedParticipants <= users) {
        return Failure(NotFound("allowed_participants"));
      }
      if |f.title| > TITLE_MAX_LENGTH {
        return Failure(TooLong("title"));
      }
      if |f.projectCode| > PROJECT_CODE_MAX_LENGTH {
        return Failure(TooLong("project_code"));
      }
      SaveInterviewKeepsOk(Snapshot(), Counts(), i, f);
      Commit(Snapshot().(interviews := interviews[i := interviews[i].(fields := f, updatedAt := clock)]),
             Counts().(clock := clock + 1));
      r := Success(());
    }

    /**
     * Creating a submission row for a candidate, an interview and a question.
     * A taken (candidate, interview, question) triple is refused and the
     * table is left as it was; otherwise the table grows by exactly the new
     * row, in front.
     */
    method InsertSubmission(candidate: UserId, interview: InterviewId, question: QuestionId, f: SubmissionFields)
      returns (r: Result<SubmissionId, StoreError>)
      requires Valid()
      modifies this
      ensures Valid()
      ensures r.Success? <==> SubmissionWritable(old(Snapshot()), candidate, interview, question, f)
                              && !KeyTaken(old(submissions), (candidate, interview, question))
      ensures r == Failure(DuplicateAnswer) <==>
                SubmissionWritable(old(Snapshot()), candidate, interview, question, f)
                && KeyTaken(old(submissions), (candidate, interview, question))
      ensures r.Failure? ==> Snapshot() == old(Snapshot())
      ensures r.Success? ==> r.value !in set s | s in old(submissions) :: s.id
      ensures r.Success? ==>
        submissions == [Submission(r.value, candidate, interview, question, f, old(clock))] + old(submissions)
      ensures users == old(users) && questions == old(questions) && interviews == old(interviews)
    {
      if candidate !in users {
        return Failure(NotFound("candidate"));
      }
      if interview !in InterviewIds(interviews) {
        return Failure(NotFound("interview"));
      }
      if question !in QuestionIds(questions) {
        return Failure(NotFound("question"));
      }
      if !SubmissionFieldsOk(f) {
        return Failure(OutOfRange("metric_score"));
      }
      if KeyTaken(submissions, (candidate, interview, question)) {
        return Failure(DuplicateAnswer);
      }
      InsertSubmissionKeepsOk(Snapshot(), Counts(), candidate, interview, question, f);
      var id := nextSubmission;
      submissions := [Submission(id, candidate, interview, question, f, clock)] + submissions;
      nextSubmission, clock := nextSubmission + 1, clock + 1;
      r := Success(id);
    }

    /** Deleting an interview: the interview row and exactly the submissions referencing it go. */
    method DeleteInterview(id: InterviewId) returns (found: bool)
      requires Valid()
      modifies this
      ensures Valid()
      ensures found == (id in InterviewIds(old(interviews)))
      ensures Snapshot() == Cascade(old(Snapshot()), {}, {id}, {})
      ensures !found ==> Snapshot() == old(Snapshot())
    {
      CascadeStep(Snapshot(), Counts(), {}, {id}, {});
      found := id in InterviewIds(interviews);
      Commit(Cascade(Snapshot(), {}, {id}, {}), Counts());
    }

    /**
     * Deleting a question: the question row goes, with the submissions that
     * reference it, and it is dropped from every interview's question set.
     * Nothing else changes: the interviews keep their columns and updated_at.
     */
    method DeleteQuestion(id: QuestionId) returns (found: bool)
      requires Valid()
      modifies this
      ensures Valid()
      ensures found == (id in QuestionIds(old(questions)))
      ensures Snapshot() == Cascade(old(Snapshot()), {}, {}, {id})
      ensures !found ==> Snapshot() == old(Snapshot())
    {
      CascadeStep(Snapshot(), Counts(), {}, {}, {id});
      found := id in QuestionIds(questions);
      Commit(Cascade(Snapshot(), {}, {}, {id}), Counts());
    }

    /**
     * Deleting a user: their account goes, with every interview they own
     * (and in turn every submission to those interviews, whoever made it),
     * every submission they made, and their place in every interview's
     * allowed participants.
     */
    method DeleteUser(u: UserId) returns (found: bool)
      requires Valid()
      modifies this
      ensures Valid()
      ensures found == (u in old(users))
      ensures Snapshot() == Cascade(old(Snapshot()), {u}, OwnedInterviews(old(interviews), {u}), {})
      ensures !found ==> Snapshot() == old(Snapshot())
    {
      var gi := OwnedInterviews(interviews, {u});
      if u !in users {
        AbsentUserOwnsNothing(Snapshot(), Counts(), u);
      }
      CascadeStep(Snapshot(), Counts(), {u}, gi, {});
      found := u in users;
      Commit(Cascade(Snapshot(), {u}, gi, {}), Counts());
    }
  }
}
