/** The side effects of a new comment on the discussion it belongs to and on the commenting
    user's participation record, and the order of the reads and writes of the transaction
    that performs them. */
module Discussions {
  import opened Base
  import opened Identity
  import opened Records

  predicate NoDuplicates(s: seq<Uid>) {
    forall i, j :: 0 <= i < j < |s| ==> s[i] != s[j]
  }

  /** participantCount is the number of distinct participants. */
  ghost predicate WellCounted(d: Discussion) {
    NoDuplicates(d.participants) && d.participantCount == |d.participants|
  }

  /** The discussion after a comment by `uid`: one more comment, fresh activity time, and
      `uid` appended to the participants (with participantCount bumped) only when absent. */
  function Commented(d: Discussion, uid: Uid, now: nat): Discussion {
    var d' := d.(commentCount := d.commentCount + 1, lastActivityAt := Some(now));
    if uid in d.participants then d'
    else d'.(participants := d.participants + [uid], participantCount := d.participantCount + 1)
  }

  /** A comment keeps participantCount equal to the number of distinct participants, adds one
      comment, makes the author a participant and keeps every earlier participant in place. */
  lemma CommentedKeepsCount(d: Discussion, uid: Uid, now: nat)
    requires WellCounted(d)
    ensures var d' := Commented(d, uid, now);
      && WellCounted(d')
      && d'.commentCount == d.commentCount + 1
      && uid in d'.participants
      && d'.participants[..|d.participants|] == d.participants
      && d'.participantCount == d.participantCount + (if uid in d.participants then 0 else 1)
  {
    var d' := Commented(d, uid, now);
    if uid !in d.participants {
      assert d'.participants[|d.participants|] == uid;
    }
  }

  /** A second comment by the same user changes neither the participants nor their count. */
  lemma CommentedTwice(d: Discussion, uid: Uid, t1: nat, t2: nat)
    ensures Commented(Commented(d, uid, t1), uid, t2).participants == Commented(d, uid, t1).participants
    ensures Commented(Commented(d, uid, t1), uid, t2).participantCount
      == Commented(d, uid, t1).participantCount
  {
    var d1 := Commented(d, uid, t1);
    if uid !in d.participants {
      assert d1.participants[|d.participants|] == uid;
    }
  }

  /** The participation record after a comment: created with count 1, or merged with its
      count bumped by one. */
  function Participated(
    records: map<(Uid, string), Participation>, uid: Uid, discussionId: string, newsUrl: string, now: nat)
    : (p: Participation)
    ensures p.commentCount == (if (uid, discussionId) in records then records[(uid, discussionId)].commentCount else 0) + 1
    ensures p.discussionId == discussionId && p.newsUrl == newsUrl && p.lastCommentAt == now
  {
    var before := if (uid, discussionId) in records then records[(uid, discussionId)].commentCount else 0;
    Participation(discussionId, newsUrl, now, before + 1)
  }

  /** One document access inside a store transaction. */
  datatype TxnStep = Read(path: string) | Write(path: string)

  /** The store refuses a transaction that reads a document after it has written one. */
  ghost predicate ReadAfterWrite(steps: seq<TxnStep>) {
    exists i, j :: 0 <= i < j < |steps| && steps[i].Write? && steps[j].Read?
  }

  function UserPath(uid: Uid): string { "users/" + uid }
  function ParticipationPath(uid: Uid, discussionId: string): string {
    "users/" + uid + "/participatedDiscussions/" + discussionId
  }
  function DiscussionPath(discussionId: string): string { "discussions/" + discussionId }

  /** The accesses of the comment trigger's transaction in the order the handler issues them:
      read the user, update it if present, merge the participation record, then read the
      discussion and update it if present. */
  function CommentTxnAsWritten(
    uid: Uid, discussionId: string, userExists: bool, discussionExists: bool, newParticipant: bool)
    : seq<TxnStep>
  {
    [Read(UserPath(uid))]
    + (if userExists then [Write(UserPath(uid))] else [])
    + [Write(ParticipationPath(uid, discussionId)), Read(DiscussionPath(discussionId))]
    + (if discussionExists then [Write(DiscussionPath(discussionId))] else [])
    + (if discussionExists && newParticipant then [Write(DiscussionPath(discussionId))] else [])
  }

  /** Whatever the documents hold, the trigger as written reads the discussion after writing
      the participation record, so its transaction is refused and, the error being swallowed,
      no counter is ever updated. */
  lemma {:induction false} CommentTxnAsWrittenRejected(
    uid: Uid, discussionId: string, userExists: bool, discussionExists: bool, newParticipant: bool)
    ensures ReadAfterWrite(CommentTxnAsWritten(uid, discussionId, userExists, discussionExists, newParticipant))
  {
    var steps := CommentTxnAsWritten(uid, discussionId, userExists, discussionExists, newParticipant);
    var w := if userExists then 2 else 1;
    assert steps[w] == Write(ParticipationPath(uid, discussionId));
    assert steps[w + 1] == Read(DiscussionPath(discussionId));
  }

  /** The same accesses with both reads first, the order the store accepts. */
  function CommentTxnReordered(
    uid: Uid, discussionId: string, userExists: bool, discussionExists: bool, newParticipant: bool)
    : seq<TxnStep>
  {
    [Read(UserPath(uid)), Read(DiscussionPath(discussionId))]
    + (if userExists then [Write(UserPath(uid))] else [])
    + [Write(ParticipationPath(uid, discussionId))]
    + (if discussionExists then [Write(DiscussionPath(discussionId))] else [])
    + (if discussionExists && newParticipant then [Write(DiscussionPath(discussionId))] else [])
  }

  /** The reordered transaction is never refused. */
  lemma CommentTxnReorderedAccepted(
    uid: Uid, discussionId: string, userExists: bool, discussionExists: bool, newParticipant: bool)
    ensures !ReadAfterWrite(CommentTxnReordered(uid, discussionId, userExists, discussionExists, newParticipant))
  {
    var steps := CommentTxnReordered(uid, discussionId, userExists, discussionExists, newParticipant);
    assert forall j :: 2 <= j < |steps| ==> steps[j].Write?;
  }

  /** The reordered transaction accesses exactly the documents the handler's order does. */
  lemma CommentTxnReorderedSameAccesses(
    uid: Uid, discussionId: string, userExists: bool, discussionExists: bool, newParticipant: bool)
    ensures multiset(CommentTxnReordered(uid, discussionId, userExists, discussionExists, newParticipant))
      == multiset(CommentTxnAsWritten(uid, discussionId, userExists, discussionExists, newParticipant))
  {
  }
}
