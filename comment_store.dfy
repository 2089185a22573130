/** The comment repository: an article's comments collection and the
    users' profile documents, changed by the transactions and batches of
    `addComment`, `likeComment`, `dislikeComment` and `deleteComment`. The
    signed-in account, the id Firestore generates for a new document and
    the clock are parameters. */
module CommentStore {
  import opened Wrappers
  import opened Strings
  import opened Comments

  /** The signed-in account. */
  datatype User = User(uid: string, displayName: Option<string>, email: Option<string>, photoUrl: Option<string>)

  /** Why a repository call fails: nobody is signed in, or a write reached a
      document that does not exist (Firestore then rejects the whole
      transaction or batch). */
  datatype CommentError = NotSignedIn | MissingDocument(id: string)

  const Anonymous := "Anónimo"

  /** The first part of a split on one character runs up to the first
      occurrence of that character, or to the end. */
  lemma {:induction false} SplitFirstPart(s: string, d: char, cur: string)
    ensures exists k :: 0 <= k <= |s| && SplitFrom(s, [d], cur)[0] == cur + s[..k]
                        && d !in s[..k] && (k < |s| ==> s[k] == d)
    decreases |s|
  {
    if |s| == 0 {
      assert SplitFrom(s, [d], cur)[0] == cur + s[..0];
    } else if StartsWith(s, [d]) {
      assert s[0] == s[..1][0];
      assert SplitFrom(s, [d], cur)[0] == cur + s[..0];
    } else {
      assert s[0] != d by {
        assert s[..1] == [s[0]];
      }
      SplitFirstPart(s[1..], d, cur + [s[0]]);
      var k :| 0 <= k <= |s[1..]| && SplitFrom(s[1..], [d], cur + [s[0]])[0] == cur + [s[0]] + s[1..][..k]
               && d !in s[1..][..k] && (k < |s[1..]| ==> s[1..][k] == d);
      assert s[..k + 1] == [s[0]] + s[1..][..k];
      assert SplitFrom(s, [d], cur)[0] == cur + s[..k + 1];
    }
  }

  /** The author name of a new comment: the profile's display name, else
      the account's, else the part of the email before its first "@", else
      "Anónimo". */
  function DisplayName(profileName: Option<string>, user: User): (name: string)
    ensures profileName.Some? ==> name == profileName.value
    ensures profileName.None? && user.displayName.Some? ==> name == user.displayName.value
    ensures profileName.None? && user.displayName.None? && user.email.Some? ==>
      && StartsWith(user.email.value, name) && '@' !in name
      && (|name| < |user.email.value| ==> user.email.value[|name|] == '@')
    ensures profileName.None? && user.displayName.None? && user.email.None? ==> name == Anonymous
  {
    if profileName.Some? then profileName.value
    else if user.displayName.Some? then user.displayName.value
    else if user.email.Some? then
      var e := user.email.value;
      SplitFirstPart(e, '@', []);
      var k :| 0 <= k <= |e| && SplitFrom(e, ['@'], [])[0] == [] + e[..k] && '@' !in e[..k] && (k < |e| ==> e[k] == '@');
      assert Split(e, "@")[0] == e[..k];
      Split(e, "@")[0]
    else Anonymous
  }

  /** A user's `totalComments`; a missing counter counts as 0, as
      Firestore's increment treats it. */
  function TotalOf(totals: map<string, int>, uid: string): int {
    if uid in totals then totals[uid] else 0
  }

  /** `displayName` of a user's profile, when it has one. */
  function ProfileName(names: map<string, string>, uid: string): Option<string> {
    if uid in names then Some(names[uid]) else None
  }

  predicate DistinctIds(docs: seq<Comment>) {
    forall i, j :: 0 <= i < j < |docs| ==> docs[i].id != docs[j].id
  }

  /** The stored comment named `id`, if any. */
  function Find(docs: seq<Comment>, id: string): (r: Option<Comment>)
    ensures r.Some? ==> r.value in docs && r.value.id == id
    ensures r.None? <==> id !in Ids(docs)
    decreases |docs|
  {
    if docs == [] then None
    else if docs[0].id == id then Some(docs[0])
    else
      assert docs == [docs[0]] + docs[1..];
      IdsConcat([docs[0]], docs[1..]);
      Find(docs[1..], id)
  }

  /** The comments whose id is not in `ids`, in order. */
  function Without(docs: seq<Comment>, ids: set<string>): (r: seq<Comment>)
    ensures forall c :: c in r <==> c in docs && c.id !in ids
    decreases |docs|
  {
    if docs == [] then []
    else
      assert docs == [docs[0]] + docs[1..];
      (if docs[0].id in ids then [] else [docs[0]]) + Without(docs[1..], ids)
  }

  /** Firestore's `increment(delta)` on the `replyCount` of the comment
      `parent` names. */
  function AdjustReplies(docs: seq<Comment>, parent: Option<string>, delta: int): seq<Comment> {
    seq(|docs|, i requires 0 <= i < |docs| =>
      if parent == Some(docs[i].id) then docs[i].(replyCount := docs[i].replyCount + delta) else docs[i])
  }

  /** Only the named comment's `replyCount` moves, by exactly `delta`. */
  lemma ReplyCountMoves(docs: seq<Comment>, parent: string, delta: int)
    ensures var r := AdjustReplies(docs, Some(parent), delta);
      && |r| == |docs| && Ids(r) == Ids(docs)
      && forall i :: 0 <= i < |docs| ==>
           && r[i].replyCount == docs[i].replyCount + (if docs[i].id == parent then delta else 0)
           && r[i].(replyCount := docs[i].replyCount) == docs[i]
  {
    var r := AdjustReplies(docs, Some(parent), delta);
    forall id | id in Ids(docs) ensures id in Ids(r) {
      var i :| 0 <= i < |docs| && docs[i].id == id;
      assert r[i].id == id;
    }
  }

  /** The vote of `uid` applied to the comment `id`. */
  function Voted(docs: seq<Comment>, id: string, uid: string, like: bool): seq<Comment> {
    seq(|docs|, i requires 0 <= i < |docs| =>
      if docs[i].id == id then (if like then Like(docs[i], uid) else Dislike(docs[i], uid)) else docs[i])
  }

  /** What `deleteComment` removes: the subtree under `id`, then the comment
      itself when it exists. */
  function Doomed(docs: seq<Comment>, id: string): seq<Comment> {
    Descendants(docs, id) + (match Find(docs, id) case Some(t) => [t] case None => [])
  }

  /** The parent whose `replyCount` a deletion of `id` lowers. */
  function ParentOf(docs: seq<Comment>, id: string): Option<string> {
    match Find(docs, id) case Some(t) => t.parentId case None => None
  }

  /** A deletion leaves exactly the comments outside the doomed list, and no
      comment it leaves answers the deleted comment or one deleted with it. */
  lemma DeletionLeavesNoOrphans(docs: seq<Comment>, id: string)
    ensures var gone := Doomed(docs, id);
      var kept := Without(docs, Ids(gone));
      && Ids(gone) <= Ids(docs) + {id}
      && (forall c :: c in kept && c.parentId.Some? ==> c.parentId.value !in Ids(gone) + {id})
      && (forall c :: c in docs ==> (c in kept <==> c.id !in Ids(gone)))
  {
    var d := Descendants(docs, id);
    var t := match Find(docs, id) case Some(t) => [t] case None => [];
    var gone := Doomed(docs, id);
    var kept := Without(docs, Ids(gone));
    DescendantsClosed(docs, id);
    IdsConcat(d, t);
    assert Ids(t) <= {id};
    forall x | x in Ids(d) ensures x in Ids(docs) {
      var c :| c in d && c.id == x;
    }
    forall c | c in kept && c.parentId.Some? ensures c.parentId.value !in Ids(gone) + {id} {
    }
  }

  class CommentRepository {
    /** The article's comments collection, in the order its queries list
        the documents. */
    var docs: seq<Comment>
    /** `totalComments` of each user's profile. */
    var totals: map<string, int>
    /** `displayName` of each user's profile. */
    var profileNames: map<string, string>

    /** Ids name one document each, and every comment's votes are
        consistent. */
    predicate Valid()
      reads this
    {
      DistinctIds(docs) && forall c :: c in docs ==> VotesConsistent(c)
    }

    /** `addComment`: the new comment, with no votes and no replies, is
        stored; a reply raises its parent's `replyCount` by one, in the same
        transaction; the author's `totalComments` goes up by one. */
    method AddComment(user: Option<User>, text: string, parentId: Option<string>, newId: string, now: int)
      returns (r: Result<Comment, CommentError>)
      requires Valid() && newId !in Ids(docs)
      modifies this`docs, this`totals
      ensures Valid()
      ensures user.None? ==> r == Err(NotSignedIn) && docs == old(docs) && totals == old(totals)
      ensures user.Some? && parentId.Some? && parentId.value !in Ids(old(docs)) ==>
        r == Err(MissingDocument(parentId.value)) && docs == old(docs) && totals == old(totals)
      ensures user.Some? && (parentId.None? || parentId.value in Ids(old(docs))) ==>
        var u := user.value;
        var c := NewComment(u.uid, DisplayName(ProfileName(profileNames, u.uid), u), u.email.GetOr(""),
                            u.photoUrl.GetOr(""), text, parentId, now).(id := newId);
        && r == Ok(c)
        && docs == AdjustReplies(old(docs), parentId, 1) + [c]
        && totals == old(totals)[u.uid := TotalOf(old(totals), u.uid) + 1]
    {
      if user.None? {
        return Err(NotSignedIn);
      }
      var u := user.value;
      var name := DisplayName(ProfileName(profileNames, u.uid), u);
      var c := NewComment(u.uid, name, u.email.GetOr(""), u.photoUrl.GetOr(""), text, parentId, now).(id := newId);
      if parentId.Some? && parentId.value !in Ids(docs) {
        return Err(MissingDocument(parentId.value));
      }
      var updated := AdjustReplies(docs, parentId, 1);
      assert Ids(updated) == Ids(docs) by {
        if parentId.Some? {
          ReplyCountMoves(docs, parentId.value, 1);
        } else {
          assert updated == docs;
        }
      }
      assert forall x :: x in updated ==> VotesConsistent(x) by {
        forall x | x in updated ensures VotesConsistent(x) {
          var i :| 0 <= i < |updated| && updated[i] == x;
          assert VotesConsistent(docs[i]);
        }
      }
      assert newId !in Ids(updated);
      docs := updated + [c];
      assert DistinctIds(docs) by {
        forall i, j | 0 <= i < j < |docs| ensures docs[i].id != docs[j].id {
          if j == |docs| - 1 {
            assert docs[i] in updated;
          } else {
            assert docs[i].id == old(docs)[i].id && docs[j].id == old(docs)[j].id;
          }
        }
      }
      totals := totals[u.uid := TotalOf(totals, u.uid) + 1];
      r := Ok(c);
    }

    /** `likeComment` (`like`) or `dislikeComment`: the vote of the signed-in
        user applied to the comment in one transaction. */
    method Vote(user: Option<User>, commentId: string, like: bool) returns (r: Result<(), CommentError>)
      requires Valid()
      modifies this`docs
      ensures Valid()
      ensures user.None? ==> r == Err(NotSignedIn) && docs == old(docs)
      ensures user.Some? && commentId !in Ids(old(docs)) ==> r == Err(MissingDocument(commentId)) && docs == old(docs)
      ensures user.Some? && commentId in Ids(old(docs)) ==>
        r == Ok(()) && docs == Voted(old(docs), commentId, user.value.uid, like)
    {
      if user.None? {
        return Err(NotSignedIn);
      }
      if commentId !in Ids(docs) {
        return Err(MissingDocument(commentId));
      }
      var voted := Voted(docs, commentId, user.value.uid, like);
      forall x | x in voted ensures VotesConsistent(x) {
        var i :| 0 <= i < |voted| && voted[i] == x;
        assert VotesConsistent(docs[i]);
        VotesStayConsistent(docs[i], user.value.uid);
      }
      assert forall i :: 0 <= i < |voted| ==> voted[i].id == docs[i].id;
      docs := voted;
      r := Ok(());
    }

    /** `getAllDescendants`: the answers to `parentId`, then, answer by
        answer, the comments under each. */
    method GetAllDescendants(pool: seq<Comment>, parentId: string) returns (ds: seq<Comment>)
      ensures ds == Descendants(pool, parentId)
      decreases |pool|, 1
    {
      var kids := ChildrenOf(pool, Some(parentId));
      var rest := OthersOf(pool, Some(parentId));
      DescendantsUnfold(pool, parentId);
      if kids == [] {
        return [];
      }
      var below := DescendantsOfEach(rest, kids);
      ds := kids + below;
    }

    /** The loop of `getAllDescendants`: the comments under each answer, in
        the order of the answers. */
    method DescendantsOfEach(pool: seq<Comment>, ks: seq<Comment>) returns (all: seq<Comment>)
      ensures all == DescendantsOfAll(pool, ks)
      decreases |pool| + 1, 0
    {
      all := [];
      var i := 0;
      while i < |ks|
        invariant 0 <= i <= |ks|
        invariant all == DescendantsOfAll(pool, ks[..i])
      {
        DescendantsOfAllSnoc(pool, ks, i);
        var sub := GetAllDescendants(pool, ks[i].id);
        all := all + sub;
        i := i + 1;
      }
      assert ks[..i] == ks;
    }

    /** `deleteComment`: one batch deletes the comment and everything under
        it, lowers the parent's `replyCount` by one, and lowers each
        author's `totalComments` by the number of their comments deleted. */
    method DeleteComment(user: Option<User>, commentId: string) returns (r: Result<(), CommentError>)
      requires Valid()
      modifies this`docs, this`totals
      ensures Valid()
      ensures user.None? ==> r == Err(NotSignedIn) && docs == old(docs) && totals == old(totals)
      ensures user.Some? ==>
        var gone := Doomed(old(docs), commentId);
        var kept := Without(old(docs), Ids(gone));
        var parent := ParentOf(old(docs), commentId);
        if gone == [] then r == Ok(()) && docs == old(docs) && totals == old(totals)
        else if parent.Some? && parent.value !in Ids(kept) then
          r == Err(MissingDocument(parent.value)) && docs == old(docs) && totals == old(totals)
        else
          && r == Ok(())
          && docs == AdjustReplies(kept, parent, -1)
          && totals.Keys == old(totals).Keys + (set u | u in Authors(gone))
          && forall u :: TotalOf(totals, u) == TotalOf(old(totals), u) - CountBy(gone, u)
    {
      if user.None? {
        return Err(NotSignedIn);
      }
      var toDelete := CollectDoomed(commentId);
      var parent := ParentOf(docs, commentId);
      if toDelete == [] {
        return Ok(());
      }
      var kept := Without(docs, Ids(toDelete));
      if parent.Some? && parent.value !in Ids(kept) {
        return Err(MissingDocument(parent.value));
      }
      CommitDeletion(toDelete, parent);
      r := Ok(());
    }

    /** The comments a deletion of `commentId` takes: everything under it,
        then the comment itself when it exists. */
    method CollectDoomed(commentId: string) returns (toDelete: seq<Comment>)
      ensures toDelete == Doomed(docs, commentId)
    {
      toDelete := GetAllDescendants(docs, commentId);
      var target := Find(docs, commentId);
      if target.Some? {
        toDelete := toDelete + [target.value];
      }
    }

    /** The batch of a deletion: the comments of `gone` go, the parent's
        `replyCount` drops by one, the authors' counters drop. */
    method CommitDeletion(gone: seq<Comment>, parent: Option<string>)
      requires Valid()
      modifies this`docs, this`totals
      ensures Valid()
      ensures docs == AdjustReplies(Without(old(docs), Ids(gone)), parent, -1)
      ensures totals.Keys == old(totals).Keys + (set u | u in Authors(gone))
      ensures forall u :: TotalOf(totals, u) == TotalOf(old(totals), u) - CountBy(gone, u)
    {
      DeletionKeepsValid(docs, Ids(gone), parent);
      docs := AdjustReplies(Without(docs, Ids(gone)), parent, -1);
      DropTotals(gone);
    }

    /** The per-author counters of a deletion: each author of `gone` loses
        the number of their comments in it. */
    method DropTotals(gone: seq<Comment>)
      modifies this`totals
      ensures totals.Keys == old(totals).Keys + (set u | u in Authors(gone))
      ensures forall u :: TotalOf(totals, u) == TotalOf(old(totals), u) - CountBy(gone, u)
    {
      var authors := Authors(gone);
      var i := 0;
      while i < |authors|
        invariant 0 <= i <= |authors|
        invariant totals.Keys == old(totals).Keys + (set u | u in authors[..i])
        invariant forall u :: TotalOf(totals, u) == TotalOf(old(totals), u) - (if u in authors[..i] then CountBy(gone, u) else 0)
      {
        assert authors[..i + 1] == authors[..i] + [authors[i]];
        assert authors[i] !in authors[..i];
        totals := totals[authors[i] := TotalOf(totals, authors[i]) - CountBy(gone, authors[i])];
        i := i + 1;
      }
      assert authors[..i] == authors;
      forall u | u !in authors ensures CountBy(gone, u) == 0 {
        CountByAbsent(gone, u);
      }
    }
  }

  /** Removing comments and lowering a reply counter keeps the ids distinct
      and the votes consistent. */
  lemma DeletionKeepsValid(docs: seq<Comment>, ids: set<string>, parent: Option<string>)
    requires DistinctIds(docs) && forall c :: c in docs ==> VotesConsistent(c)
    ensures var r := AdjustReplies(Without(docs, ids), parent, -1);
      DistinctIds(r) && forall c :: c in r ==> VotesConsistent(c)
  {
    var kept := Without(docs, ids);
    var r := AdjustReplies(kept, parent, -1);
    KeptDistinct(docs, ids);
    forall x | x in r ensures VotesConsistent(x) {
      var i :| 0 <= i < |r| && r[i] == x;
      assert kept[i] in docs;
    }
    assert forall i :: 0 <= i < |r| ==> r[i].id == kept[i].id;
  }

  /** Removing comments keeps the remaining ids distinct. */
  lemma {:induction false} KeptDistinct(docs: seq<Comment>, ids: set<string>)
    requires DistinctIds(docs)
    ensures DistinctIds(Without(docs, ids))
    decreases |docs|
  {
    if docs != [] {
      assert DistinctIds(docs[1..]) by {
        forall i, j | 0 <= i < j < |docs[1..]| ensures docs[1..][i].id != docs[1..][j].id {
          assert docs[1..][i] == docs[i + 1] && docs[1..][j] == docs[j + 1];
        }
      }
      KeptDistinct(docs[1..], ids);
      var rest := Without(docs[1..], ids);
      forall c | c in rest ensures c.id != docs[0].id {
        var k :| 0 <= k < |docs[1..]| && docs[1..][k] == c;
        assert docs[k + 1] == c;
      }
      var r := (if docs[0].id in ids then [] else [docs[0]]) + rest;
      forall i, j | 0 <= i < j < |r| ensures r[i].id != r[j].id {
        if docs[0].id !in ids && i == 0 {
          assert r[j] in rest;
        }
      }
    }
  }
}
