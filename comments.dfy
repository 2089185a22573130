/** Comment threads under an article: the comment record and its stored
    form, the like and dislike toggles, the orders comments are listed in,
    the tree of replies, and the subtree a deletion takes with it. */
module Comments {
  import opened Wrappers

  /** A comment. `createdAt` is its creation timestamp as one integer;
      `parentId` is `None` for a comment on the article itself. */
  datatype Comment = Comment(
    id: string, userId: string, userName: string, userEmail: string, text: string,
    parentId: Option<string>, createdAt: int, likes: int, dislikes: int,
    likedBy: seq<string>, dislikedBy: seq<string>, replyCount: int, userPhotoUrl: string)

  /** A comment as the screen nests it: the replies loaded under it and its
      depth in the thread. */
  datatype CommentNode = CommentNode(comment: Comment, replies: seq<CommentNode>, depth: int)

  /** `CommentNode(comment)`: no replies, depth 0. */
  function Leaf(c: Comment): CommentNode {
    CommentNode(c, [], 0)
  }

  /** No user appears twice. */
  predicate NoDuplicates(xs: seq<string>) {
    forall i, j :: 0 <= i < j < |xs| ==> xs[i] != xs[j]
  }

  /** The vote counters agree with the voter lists, and nobody both likes
      and dislikes the comment. */
  predicate VotesConsistent(c: Comment) {
    && c.likes == |c.likedBy| && c.dislikes == |c.dislikedBy|
    && NoDuplicates(c.likedBy) && NoDuplicates(c.dislikedBy)
    && forall u :: u in c.likedBy ==> u !in c.dislikedBy
  }

  /** A comment as `addComment` builds it before it has an id. */
  function NewComment(userId: string, userName: string, userEmail: string, userPhotoUrl: string,
                      text: string, parentId: Option<string>, createdAt: int): (c: Comment)
    ensures VotesConsistent(c) && c.likes == 0 && c.dislikes == 0 && c.replyCount == 0
    ensures c.userId == userId && c.parentId == parentId && c.text == text && c.createdAt == createdAt
  {
    Comment("", userId, userName, userEmail, text, parentId, createdAt, 0, 0, [], [], 0, userPhotoUrl)
  }

  // ---------------------------------------------------------------------------
  // The stored document

  /** A value of a stored document field. */
  datatype FieldValue = Text(s: string) | NullableText(o: Option<string>) | Time(t: int) | Number(n: int) | TextList(l: seq<string>)

  const StoredFields: set<string> := {
    "userId", "userName", "userEmail", "text", "parentId", "createdAt",
    "likes", "dislikes", "likedBy", "dislikedBy", "replyCount", "userPhotoUrl"
  }

  /** `toMap`: every field but the id, which is the document's name. */
  function ToMap(c: Comment): (m: map<string, FieldValue>)
    ensures m.Keys == StoredFields && "id" !in m
  {
    map["userId" := Text(c.userId), "userName" := Text(c.userName), "userEmail" := Text(c.userEmail),
        "text" := Text(c.text), "parentId" := NullableText(c.parentId), "createdAt" := Time(c.createdAt),
        "likes" := Number(c.likes), "dislikes" := Number(c.dislikes), "likedBy" := TextList(c.likedBy),
        "dislikedBy" := TextList(c.dislikedBy), "replyCount" := Number(c.replyCount),
        "userPhotoUrl" := Text(c.userPhotoUrl)]
  }

  // Reading a document field: the default of the no-argument constructor
  // when the field is absent, nothing when it holds another kind of value.

  function ReadText(m: map<string, FieldValue>, k: string): Option<string> {
    if k !in m then Some("") else if m[k].Text? then Some(m[k].s) else None
  }

  function ReadNullable(m: map<string, FieldValue>, k: string): Option<Option<string>> {
    if k !in m then Some(None) else if m[k].NullableText? then Some(m[k].o) else None
  }

  function ReadTime(m: map<string, FieldValue>, k: string, now: int): Option<int> {
    if k !in m then Some(now) else if m[k].Time? then Some(m[k].t) else None
  }

  function ReadNumber(m: map<string, FieldValue>, k: string): Option<int> {
    if k !in m then Some(0) else if m[k].Number? then Some(m[k].n) else None
  }

  function ReadList(m: map<string, FieldValue>, k: string): Option<seq<string>> {
    if k !in m then Some([]) else if m[k].TextList? then Some(m[k].l) else None
  }

  /** `doc.toObject(Comment::class.java)?.copy(id = doc.id)`: the comment a
      document named `id` holds; `now` is the clock the default timestamp
      reads. A field of the wrong type gives `None` here, where `toObject`
      throws. Only the lemmas below use this decoding; the repository's
      queries take their comments as values. */
  function FromMap(id: string, m: map<string, FieldValue>, now: int): Option<Comment> {
    var userId, userName, userEmail, text := ReadText(m, "userId"), ReadText(m, "userName"), ReadText(m, "userEmail"), ReadText(m, "text");
    var parentId, createdAt := ReadNullable(m, "parentId"), ReadTime(m, "createdAt", now);
    var likes, dislikes, replyCount := ReadNumber(m, "likes"), ReadNumber(m, "dislikes"), ReadNumber(m, "replyCount");
    var likedBy, dislikedBy, photo := ReadList(m, "likedBy"), ReadList(m, "dislikedBy"), ReadText(m, "userPhotoUrl");
    if userId.Some? && userName.Some? && userEmail.Some? && text.Some? && parentId.Some? && createdAt.Some?
       && likes.Some? && dislikes.Some? && replyCount.Some? && likedBy.Some? && dislikedBy.Some? && photo.Some?
    then Some(Comment(id, userId.value, userName.value, userEmail.value, text.value, parentId.value, createdAt.value,
                      likes.value, dislikes.value, likedBy.value, dislikedBy.value, replyCount.value, photo.value))
    else None
  }

  /** A stored comment reads back as itself under its document's name. */
  lemma StoredRoundTrip(c: Comment, now: int)
    ensures FromMap(c.id, ToMap(c), now) == Some(c)
  {
  }

  /** An empty document reads as the no-argument constructor's comment: a
      root comment with no text, no votes and no replies, stamped now. */
  lemma EmptyDocument(id: string, now: int)
    ensures FromMap(id, map[], now) == Some(Comment(id, "", "", "", "", None, now, 0, 0, [], [], 0, ""))
  {
  }

  // ---------------------------------------------------------------------------
  // Votes

  /** Firestore's `arrayUnion` of one element. */
  function ArrayUnion(xs: seq<string>, u: string): seq<string> {
    if u in xs then xs else xs + [u]
  }

  /** Firestore's `arrayRemove` of one element: every occurrence goes. */
  function ArrayRemove(xs: seq<string>, u: string): (r: seq<string>)
    ensures forall v :: v in r <==> v in xs && v != u
    ensures NoDuplicates(xs) ==> NoDuplicates(r) && |r| == |xs| - (if u in xs then 1 else 0)
  {
    if xs == [] then []
    else
      var rest := ArrayRemove(xs[1..], u);
      assert NoDuplicates(xs) ==> NoDuplicates(xs[1..]) && xs[0] !in xs[1..] by {
        if NoDuplicates(xs) {
          forall i, j | 0 <= i < j < |xs[1..]| ensures xs[1..][i] != xs[1..][j] {
            assert xs[1..][i] == xs[i + 1] && xs[1..][j] == xs[j + 1];
          }
          forall k | 0 <= k < |xs[1..]| ensures xs[1..][k] != xs[0] {
            assert xs[1..][k] == xs[k + 1];
          }
        }
      }
      assert u in xs <==> u == xs[0] || u in xs[1..] by {
        assert xs == [xs[0]] + xs[1..];
      }
      (if xs[0] == u then [] else [xs[0]]) + rest
  }

  /** Removing an element just appended, and absent before, restores the list. */
  lemma {:induction false} RemoveAppended(xs: seq<string>, u: string)
    requires u !in xs
    ensures ArrayRemove(xs + [u], u) == xs
    decreases |xs|
  {
    if xs == [] {
      assert ArrayRemove([u], u) == [] + ArrayRemove([], u);
    } else {
      assert (xs + [u])[1..] == xs[1..] + [u];
      RemoveAppended(xs[1..], u);
      assert xs == [xs[0]] + xs[1..];
    }
  }

  /** `likeComment`'s transaction: a like is taken back, a dislike becomes a
      like, or a like is added. */
  function Like(c: Comment, uid: string): Comment {
    if uid in c.likedBy then
      c.(likes := c.likes - 1, likedBy := ArrayRemove(c.likedBy, uid))
    else if uid in c.dislikedBy then
      c.(likes := c.likes + 1, dislikes := c.dislikes - 1,
         likedBy := ArrayUnion(c.likedBy, uid), dislikedBy := ArrayRemove(c.dislikedBy, uid))
    else
      c.(likes := c.likes + 1, likedBy := ArrayUnion(c.likedBy, uid))
  }

  /** `dislikeComment`'s transaction, the mirror image of `Like`. */
  function Dislike(c: Comment, uid: string): Comment {
    if uid in c.dislikedBy then
      c.(dislikes := c.dislikes - 1, dislikedBy := ArrayRemove(c.dislikedBy, uid))
    else if uid in c.likedBy then
      c.(dislikes := c.dislikes + 1, likes := c.likes - 1,
         dislikedBy := ArrayUnion(c.dislikedBy, uid), likedBy := ArrayRemove(c.likedBy, uid))
    else
      c.(dislikes := c.dislikes + 1, dislikedBy := ArrayUnion(c.dislikedBy, uid))
  }

  /** Both toggles keep the counters equal to the list lengths, the lists
      free of repetitions and disjoint. */
  lemma VotesStayConsistent(c: Comment, uid: string)
    requires VotesConsistent(c)
    ensures VotesConsistent(Like(c, uid))
    ensures VotesConsistent(Dislike(c, uid))
  {
  }

  /** A like toggles the user's like, clears the user's dislike unless it
      took a like back, moves the like counter by one, and touches no other
      voter and no other field. */
  lemma LikeEffect(c: Comment, uid: string)
    ensures var r := Like(c, uid);
      && (uid in r.likedBy <==> uid !in c.likedBy)
      && (uid in r.dislikedBy <==> uid in c.likedBy && uid in c.dislikedBy)
      && r.likes == c.likes + (if uid in c.likedBy then -1 else 1)
      && r.dislikes == c.dislikes - (if uid !in c.likedBy && uid in c.dislikedBy then 1 else 0)
      && (forall v :: v != uid ==> (v in r.likedBy <==> v in c.likedBy) && (v in r.dislikedBy <==> v in c.dislikedBy))
      && r.(likes := c.likes, dislikes := c.dislikes, likedBy := c.likedBy, dislikedBy := c.dislikedBy) == c
  {
  }

  /** The mirror image of `LikeEffect`. */
  lemma DislikeEffect(c: Comment, uid: string)
    ensures var r := Dislike(c, uid);
      && (uid in r.dislikedBy <==> uid !in c.dislikedBy)
      && (uid in r.likedBy <==> uid in c.dislikedBy && uid in c.likedBy)
      && r.dislikes == c.dislikes + (if uid in c.dislikedBy then -1 else 1)
      && r.likes == c.likes - (if uid !in c.dislikedBy && uid in c.likedBy then 1 else 0)
      && (forall v :: v != uid ==> (v in r.likedBy <==> v in c.likedBy) && (v in r.dislikedBy <==> v in c.dislikedBy))
      && r.(likes := c.likes, dislikes := c.dislikes, likedBy := c.likedBy, dislikedBy := c.dislikedBy) == c
  {
  }

  /** Liking twice, from no vote, gives the comment back unchanged; so does
      disliking twice. */
  lemma ToggleTwice(c: Comment, uid: string)
    requires uid !in c.likedBy && uid !in c.dislikedBy
    ensures Like(Like(c, uid), uid) == c
    ensures Dislike(Dislike(c, uid), uid) == c
  {
    RemoveAppended(c.likedBy, uid);
    RemoveAppended(c.dislikedBy, uid);
  }

  // ---------------------------------------------------------------------------
  // Orders

  /** Key `a` comes strictly before key `b` in a descending sort on pairs
      compared first by their first component. */
  predicate Above(a: (int, int), b: (int, int)) {
    a.0 > b.0 || (a.0 == b.0 && a.1 > b.1)
  }

  predicate SortedDesc<T>(xs: seq<T>, key: T -> (int, int)) {
    forall i, j :: 0 <= i < j < |xs| ==> !Above(key(xs[j]), key(xs[i]))
  }

  /** A sorted list stays sorted under a head not below any of its keys. */
  lemma ConsSorted<T>(h: T, t: seq<T>, key: T -> (int, int))
    requires SortedDesc(t, key)
    requires forall y :: y in t ==> !Above(key(y), key(h))
    ensures SortedDesc([h] + t, key)
  {
    var r := [h] + t;
    forall i, j | 0 <= i < j < |r| ensures !Above(key(r[j]), key(r[i])) {
      assert r[j] == t[j - 1];
      if i > 0 {
        assert r[i] == t[i - 1];
      }
    }
  }

  /** Puts `x` after every element whose key is not below its own. */
  function Insert<T(!new)>(x: T, s: seq<T>, key: T -> (int, int)): (r: seq<T>)
    requires SortedDesc(s, key)
    ensures SortedDesc(r, key) && multiset(r) == multiset(s) + multiset{x}
    ensures |r| == |s| + 1 && forall y :: y in r <==> y == x || y in s
    decreases |s|
  {
    if s == [] then [x]
    else if Above(key(x), key(s[0])) then
      assert forall y :: y in s ==> !Above(key(y), key(x)) by {
        forall y | y in s ensures !Above(key(y), key(x)) {
          var j :| 0 <= j < |s| && s[j] == y;
          if j > 0 {
            assert !Above(key(s[j]), key(s[0]));
          }
        }
      }
      ConsSorted(x, s, key);
      [x] + s
    else
      assert s == [s[0]] + s[1..];
      var rest := Insert(x, s[1..], key);
      assert SortedDesc(s[1..], key) by {
        forall i, j | 0 <= i < j < |s[1..]| ensures !Above(key(s[1..][j]), key(s[1..][i])) {
          assert s[1..][j] == s[j + 1] && s[1..][i] == s[i + 1];
        }
      }
      assert forall y :: y in rest ==> !Above(key(y), key(s[0])) by {
        forall y | y in rest ensures !Above(key(y), key(s[0])) {
          if y != x {
            var j :| 0 <= j < |s[1..]| && s[1..][j] == y;
            assert s[j + 1] == y;
          }
        }
      }
      ConsSorted(s[0], rest, key);
      [s[0]] + rest
  }

  /** A stable sort, descending by `key`: the sorts of `getComments`,
      `getReplies` and `buildCommentTree`. */
  function SortDesc<T(!new)>(xs: seq<T>, key: T -> (int, int)): (r: seq<T>)
    ensures SortedDesc(r, key) && multiset(r) == multiset(xs)
    ensures |r| == |xs| && forall y :: y in r <==> y in xs
    decreases |xs|
  {
    if xs == [] then []
    else
      var init, last := xs[..|xs| - 1], xs[|xs| - 1];
      assert xs == init + [last];
      Insert(last, SortDesc(init, key), key)
  }

  /** The elements of `xs` whose key is `k`, in list order. */
  function WithKey<T>(xs: seq<T>, key: T -> (int, int), k: (int, int)): (r: seq<T>)
    ensures forall y :: y in r ==> y in xs && key(y) == k
    decreases |xs|
  {
    if xs == [] then []
    else (if key(xs[0]) == k then [xs[0]] else []) + WithKey(xs[1..], key, k)
  }

  lemma {:induction false} WithKeyAppend<T>(a: seq<T>, b: seq<T>, key: T -> (int, int), k: (int, int))
    ensures WithKey(a + b, key, k) == WithKey(a, key, k) + WithKey(b, key, k)
    decreases |a|
  {
    if a == [] {
      assert a + b == b;
    } else {
      assert (a + b)[0] == a[0] && (a + b)[1..] == a[1..] + b;
      WithKeyAppend(a[1..], b, key, k);
    }
  }

  lemma {:induction false} WithKeyNone<T>(xs: seq<T>, key: T -> (int, int), k: (int, int))
    requires forall y :: y in xs ==> key(y) != k
    ensures WithKey(xs, key, k) == []
    decreases |xs|
  {
    if xs != [] {
      assert xs[0] in xs;
      WithKeyNone(xs[1..], key, k);
    }
  }

  /** Insertion is stable: `x` lands after every element with its own key. */
  lemma {:induction false} InsertStable<T(!new)>(x: T, s: seq<T>, key: T -> (int, int), k: (int, int))
    requires SortedDesc(s, key)
    ensures WithKey(Insert(x, s, key), key, k) == WithKey(s, key, k) + (if key(x) == k then [x] else [])
    decreases |s|
  {
    if s == [] {
    } else if Above(key(x), key(s[0])) {
      forall y | y in s ensures key(y) != key(x) {
        var j :| 0 <= j < |s| && s[j] == y;
        if j > 0 {
          assert !Above(key(s[j]), key(s[0]));
        }
      }
      WithKeyNone(s, key, key(x));
      assert Insert(x, s, key) == [x] + s;
      assert ([x] + s)[1..] == s;
    } else {
      assert SortedDesc(s[1..], key) by {
        forall i, j | 0 <= i < j < |s[1..]| ensures !Above(key(s[1..][j]), key(s[1..][i])) {
          assert s[1..][j] == s[j + 1] && s[1..][i] == s[i + 1];
        }
      }
      var rest := Insert(x, s[1..], key);
      assert Insert(x, s, key) == [s[0]] + rest;
      assert ([s[0]] + rest)[1..] == rest;
      InsertStable(x, s[1..], key, k);
    }
  }

  /** `SortDesc` is stable: among elements with equal keys the list order is
      kept, as Kotlin's `sortedWith` keeps it. */
  lemma {:induction false} SortDescStable<T(!new)>(xs: seq<T>, key: T -> (int, int), k: (int, int))
    ensures WithKey(SortDesc(xs, key), key, k) == WithKey(xs, key, k)
    decreases |xs|
  {
    if xs != [] {
      var init, last := xs[..|xs| - 1], xs[|xs| - 1];
      assert xs == init + [last];
      var sorted := SortDesc(init, key);
      assert SortDesc(xs, key) == Insert(last, sorted, key);
      SortDescStable(init, key, k);
      InsertStable(last, sorted, key, k);
      WithKeyAppend(init, [last], key, k);
      assert WithKey([last], key, k) == (if key(last) == k then [last] else []) by {
        assert [last][1..] == [];
      }
    }
  }

  /** Root comments: most liked first, newer first among equals. */
  function RootKey(c: Comment): (int, int) {
    (c.likes, c.createdAt)
  }

  /** Replies: oldest first, a descending sort on the negated timestamp. */
  function ReplyKey(c: Comment): (int, int) {
    (-c.createdAt, 0)
  }

  /** Tree nodes: most liked first. */
  function NodeKey(n: CommentNode): (int, int) {
    (n.comment.likes, 0)
  }

  // ---------------------------------------------------------------------------
  // Queries by parent

  /** The comments whose parent is `parent`, in order (`whereEqualTo`). */
  function ChildrenOf(pool: seq<Comment>, parent: Option<string>): (r: seq<Comment>)
    ensures forall c :: c in r <==> c in pool && c.parentId == parent
    decreases |pool|
  {
    if pool == [] then []
    else
      assert pool == [pool[0]] + pool[1..];
      (if pool[0].parentId == parent then [pool[0]] else []) + ChildrenOf(pool[1..], parent)
  }

  /** The other comments, in order. */
  function OthersOf(pool: seq<Comment>, parent: Option<string>): (r: seq<Comment>)
    ensures forall c :: c in r <==> c in pool && c.parentId != parent
    ensures |r| + |ChildrenOf(pool, parent)| == |pool|
    decreases |pool|
  {
    if pool == [] then []
    else
      assert pool == [pool[0]] + pool[1..];
      (if pool[0].parentId != parent then [pool[0]] else []) + OthersOf(pool[1..], parent)
  }

  /** `getReplies`: the answers to `parentId`, oldest first. */
  function Replies(docs: seq<Comment>, parentId: string): seq<Comment> {
    SortDesc(ChildrenOf(docs, Some(parentId)), ReplyKey)
  }

  /** Exactly the comments answering `parentId`, each as often as stored,
      in ascending order of creation. */
  lemma RepliesMeaning(docs: seq<Comment>, parentId: string)
    ensures multiset(Replies(docs, parentId)) == multiset(ChildrenOf(docs, Some(parentId)))
    ensures forall c :: c in Replies(docs, parentId) <==> c in docs && c.parentId == Some(parentId)
    ensures forall i, j :: 0 <= i < j < |Replies(docs, parentId)| ==>
      Replies(docs, parentId)[i].createdAt <= Replies(docs, parentId)[j].createdAt
  {
    var r := Replies(docs, parentId);
    forall c ensures c in r <==> c in ChildrenOf(docs, Some(parentId)) {
      assert c in r <==> c in multiset(r);
    }
    forall i, j | 0 <= i < j < |r| ensures r[i].createdAt <= r[j].createdAt {
      assert !Above(ReplyKey(r[j]), ReplyKey(r[i]));
    }
  }

  /** `getComments`: the root comments as leaf nodes, most liked first and
      newer first among equals. */
  function RootNodes(docs: seq<Comment>): seq<CommentNode> {
    Leaves(SortDesc(ChildrenOf(docs, None), RootKey))
  }

  /** A leaf node per comment, in order. */
  function Leaves(cs: seq<Comment>): (r: seq<CommentNode>)
    ensures |r| == |cs| && forall i :: 0 <= i < |cs| ==> r[i] == Leaf(cs[i])
  {
    if cs == [] then [] else Leaves(cs[..|cs| - 1]) + [Leaf(cs[|cs| - 1])]
  }

  lemma RootNodesMeaning(docs: seq<Comment>)
    ensures var r := RootNodes(docs);
      && |r| == |ChildrenOf(docs, None)|
      && (forall n :: n in r ==> n.replies == [] && n.depth == 0 && n.comment in docs && n.comment.parentId.None?)
      && (forall c :: c in docs && c.parentId.None? ==> exists n :: n in r && n.comment == c)
      && (forall i, j :: 0 <= i < j < |r| ==>
            r[i].comment.likes > r[j].comment.likes
            || (r[i].comment.likes == r[j].comment.likes && r[i].comment.createdAt >= r[j].comment.createdAt))
  {
    RootNodesShape(docs);
    RootNodesCover(docs);
    RootNodesOrder(docs);
  }

  lemma RootNodesShape(docs: seq<Comment>)
    ensures forall n :: n in RootNodes(docs) ==> n.replies == [] && n.depth == 0 && n.comment in docs && n.comment.parentId.None?
  {
    var roots := SortDesc(ChildrenOf(docs, None), RootKey);
    var r := RootNodes(docs);
    forall n | n in r ensures n.replies == [] && n.depth == 0 && n.comment in docs && n.comment.parentId.None? {
      var i :| 0 <= i < |r| && r[i] == n;
      assert n.comment == roots[i];
    }
  }

  lemma RootNodesCover(docs: seq<Comment>)
    ensures forall c :: c in docs && c.parentId.None? ==> exists n :: n in RootNodes(docs) && n.comment == c
  {
    var roots := SortDesc(ChildrenOf(docs, None), RootKey);
    var r := RootNodes(docs);
    forall c | c in docs && c.parentId.None? ensures exists n :: n in r && n.comment == c {
      var i :| 0 <= i < |roots| && roots[i] == c;
      assert r[i].comment == c;
    }
  }

  lemma RootNodesOrder(docs: seq<Comment>)
    ensures var r := RootNodes(docs);
      forall i, j :: 0 <= i < j < |r| ==>
        r[i].comment.likes > r[j].comment.likes
        || (r[i].comment.likes == r[j].comment.likes && r[i].comment.createdAt >= r[j].comment.createdAt)
  {
    var roots := SortDesc(ChildrenOf(docs, None), RootKey);
    var r := RootNodes(docs);
    forall i, j | 0 <= i < j < |r|
      ensures r[i].comment.likes > r[j].comment.likes
              || (r[i].comment.likes == r[j].comment.likes && r[i].comment.createdAt >= r[j].comment.createdAt)
    {
      assert !Above(RootKey(roots[j]), RootKey(roots[i]));
    }
  }

  // ---------------------------------------------------------------------------
  // The reply tree

  /** `buildNode`: the node of `c` at `depth`, its replies built from the
      comments answering it, most liked first. Each level looks the next one
      up among the comments not yet placed, which keeps a cycle of parent
      links from recursing for ever. */
  function BuildNode(c: Comment, pool: seq<Comment>, depth: int): CommentNode
    decreases |pool|, 1
  {
    var kids := ChildrenOf(pool, Some(c.id));
    var rest := OthersOf(pool, Some(c.id));
    CommentNode(c, SortDesc(BuildEach(kids, rest, depth + 1), NodeKey), depth)
  }

  /** The node of each of `ks`, in order. */
  function BuildEach(ks: seq<Comment>, pool: seq<Comment>, depth: int): seq<CommentNode>
    decreases |pool| + |ks|, 0
  {
    if ks == [] then []
    else BuildEach(ks[..|ks| - 1], pool, depth) + [BuildNode(ks[|ks| - 1], pool, depth)]
  }

  lemma {:induction false} BuildEachAt(ks: seq<Comment>, pool: seq<Comment>, depth: int)
    ensures var r := BuildEach(ks, pool, depth);
      |r| == |ks| && forall i :: 0 <= i < |ks| ==> r[i] == BuildNode(ks[i], pool, depth)
    decreases |ks|
  {
    if ks != [] {
      var init := ks[..|ks| - 1];
      BuildEachAt(init, pool, depth);
      var front := BuildEach(init, pool, depth);
      var r := front + [BuildNode(ks[|ks| - 1], pool, depth)];
      assert BuildEach(ks, pool, depth) == r;
      forall i | 0 <= i < |ks| ensures r[i] == BuildNode(ks[i], pool, depth) {
        if i < |init| {
          assert r[i] == front[i] && ks[i] == init[i];
        }
      }
    }
  }

  /** `buildCommentTree`: a tree per root comment, most liked first. */
  function BuildCommentTree(comments: seq<Comment>): seq<CommentNode> {
    SortDesc(BuildEach(ChildrenOf(comments, None), comments, 0), NodeKey)
  }

  /** Each node's depth is its distance from the top node (at depth `d`),
      each reply answers its node, and siblings are sorted by likes. */
  predicate WellFormed(n: CommentNode, d: int) {
    && n.depth == d
    && SortedDesc(n.replies, NodeKey)
    && forall r :: r in n.replies ==> r.comment.parentId == Some(n.comment.id) && WellFormed(r, d + 1)
  }

  /** A built node is well formed, and every comment answering it is among
      its replies. */
  lemma BuildNodeMeaning(c: Comment, pool: seq<Comment>, depth: int)
    ensures WellFormed(BuildNode(c, pool, depth), depth)
    ensures forall k :: k in pool && k.parentId == Some(c.id) ==>
      exists r :: r in BuildNode(c, pool, depth).replies && r.comment == k
  {
    BuildNodeWellFormed(c, pool, depth);
    BuildNodeComplete(c, pool, depth);
  }

  lemma {:induction false} BuildNodeWellFormed(c: Comment, pool: seq<Comment>, depth: int)
    ensures WellFormed(BuildNode(c, pool, depth), depth)
    decreases |pool|
  {
    var kids := ChildrenOf(pool, Some(c.id));
    var rest := OthersOf(pool, Some(c.id));
    var nodes := BuildEach(kids, rest, depth + 1);
    BuildEachAt(kids, rest, depth + 1);
    var n := BuildNode(c, pool, depth);
    assert n.replies == SortDesc(nodes, NodeKey);
    forall r | r in n.replies ensures r.comment.parentId == Some(c.id) && WellFormed(r, depth + 1) {
      var i :| 0 <= i < |nodes| && nodes[i] == r;
      BuildNodeWellFormed(kids[i], rest, depth + 1);
    }
  }

  lemma BuildNodeComplete(c: Comment, pool: seq<Comment>, depth: int)
    ensures forall k :: k in pool && k.parentId == Some(c.id) ==>
      exists r :: r in BuildNode(c, pool, depth).replies && r.comment == k
  {
    var kids := ChildrenOf(pool, Some(c.id));
    var rest := OthersOf(pool, Some(c.id));
    var nodes := BuildEach(kids, rest, depth + 1);
    BuildEachAt(kids, rest, depth + 1);
    var n := BuildNode(c, pool, depth);
    assert n.replies == SortDesc(nodes, NodeKey);
    forall k | k in pool && k.parentId == Some(c.id) ensures exists r :: r in n.replies && r.comment == k {
      var i :| 0 <= i < |kids| && kids[i] == k;
      assert nodes[i] in n.replies;
      assert nodes[i].comment == k;
    }
  }

  /** The tree has one well-formed node per root comment, sorted by likes. */
  lemma BuildCommentTreeMeaning(comments: seq<Comment>)
    ensures var t := BuildCommentTree(comments);
      && SortedDesc(t, NodeKey)
      && |t| == |ChildrenOf(comments, None)|
      && (forall n :: n in t ==> n.comment in comments && n.comment.parentId.None? && WellFormed(n, 0))
      && (forall c :: c in comments && c.parentId.None? ==> exists n :: n in t && n.comment == c)
  {
    var nodes := BuildEach(ChildrenOf(comments, None), comments, 0);
    BuildEachAt(ChildrenOf(comments, None), comments, 0);
    assert BuildCommentTree(comments) == SortDesc(nodes, NodeKey);
    TreeNodesWellFormed(comments);
    TreeCoversRoots(comments);
  }

  lemma TreeNodesWellFormed(comments: seq<Comment>)
    ensures forall n :: n in BuildCommentTree(comments) ==> n.comment in comments && n.comment.parentId.None? && WellFormed(n, 0)
  {
    var roots := ChildrenOf(comments, None);
    var nodes := BuildEach(roots, comments, 0);
    BuildEachAt(roots, comments, 0);
    var t := BuildCommentTree(comments);
    assert t == SortDesc(nodes, NodeKey);
    forall n | n in t ensures n.comment in comments && n.comment.parentId.None? && WellFormed(n, 0) {
      var i :| 0 <= i < |nodes| && nodes[i] == n;
      BuildNodeWellFormed(roots[i], comments, 0);
    }
  }

  lemma TreeCoversRoots(comments: seq<Comment>)
    ensures forall c :: c in comments && c.parentId.None? ==> exists n :: n in BuildCommentTree(comments) && n.comment == c
  {
    var roots := ChildrenOf(comments, None);
    var nodes := BuildEach(roots, comments, 0);
    BuildEachAt(roots, comments, 0);
    var t := BuildCommentTree(comments);
    assert t == SortDesc(nodes, NodeKey);
    forall c | c in comments && c.parentId.None? ensures exists n :: n in t && n.comment == c {
      var i :| 0 <= i < |roots| && roots[i] == c;
      assert nodes[i] in t && nodes[i].comment == c;
    }
  }

  // ---------------------------------------------------------------------------
  // The subtree under a comment

  /** `getAllDescendants`: the answers to `id`, then the descendants of each
      answer in turn. As in `BuildNode`, deeper levels are looked up among
      the comments not yet collected on the way down. */
  function Descendants(pool: seq<Comment>, id: string): seq<Comment>
    decreases |pool|, 1
  {
    var kids := ChildrenOf(pool, Some(id));
    var rest := OthersOf(pool, Some(id));
    if kids == [] then [] else kids + DescendantsOfAll(rest, kids)
  }

  /** The descendants of each comment of `ks`, concatenated in order. */
  function DescendantsOfAll(pool: seq<Comment>, ks: seq<Comment>): seq<Comment>
    decreases |pool|, |ks| + 1
  {
    if ks == [] then []
    else DescendantsOfAll(pool, ks[..|ks| - 1]) + Descendants(pool, ks[|ks| - 1].id)
  }

  /** One step of `Descendants`: the answers, then what lies under them,
      drawn from a pool without those answers. */
  lemma DescendantsUnfold(pool: seq<Comment>, id: string)
    ensures var kids := ChildrenOf(pool, Some(id));
      && (kids == [] ==> Descendants(pool, id) == [])
      && (kids != [] ==> Descendants(pool, id) == kids + DescendantsOfAll(OthersOf(pool, Some(id)), kids))
      && |OthersOf(pool, Some(id))| + |kids| == |pool|
  {
  }

  /** `DescendantsOfAll` grows answer by answer. */
  lemma DescendantsOfAllSnoc(pool: seq<Comment>, ks: seq<Comment>, i: int)
    requires 0 <= i < |ks|
    ensures DescendantsOfAll(pool, ks[..i + 1]) == DescendantsOfAll(pool, ks[..i]) + Descendants(pool, ks[i].id)
  {
    assert ks[..i + 1][..i] == ks[..i];
  }

  /** The ids of a list of comments. */
  function Ids(xs: seq<Comment>): set<string> {
    set c | c in xs :: c.id
  }

  /** Every comment of `r` comes from `pool` and answers a comment of `r`
      or one of the ids `anchors`. */
  predicate Rooted(r: seq<Comment>, pool: seq<Comment>, anchors: set<string>) {
    forall x :: x in r ==> x in pool && x.parentId.Some? && x.parentId.value in Ids(r) + anchors
  }

  /** Every comment of `pool` answering a comment of `r` or one of the ids
      `anchors` is in `r`. */
  predicate Complete(r: seq<Comment>, pool: seq<Comment>, anchors: set<string>) {
    forall x :: x in pool && x.parentId.Some? && x.parentId.value in Ids(r) + anchors ==> x in r
  }

  lemma IdsConcat(a: seq<Comment>, b: seq<Comment>)
    ensures Ids(a + b) == Ids(a) + Ids(b)
  {
    forall id | id in Ids(a + b) ensures id in Ids(a) + Ids(b) {
      var c :| c in a + b && c.id == id;
    }
    forall id | id in Ids(a) + Ids(b) ensures id in Ids(a + b) {
      if id in Ids(a) {
        var c :| c in a && c.id == id;
        assert c in a + b;
      } else {
        var c :| c in b && c.id == id;
        assert c in a + b;
      }
    }
  }

  /** Two rooted, complete lists joined, with their anchors joined. */
  lemma JoinClosed(a: seq<Comment>, b: seq<Comment>, pool: seq<Comment>, anchorsA: set<string>, anchorsB: set<string>)
    requires Rooted(a, pool, anchorsA) && Rooted(b, pool, anchorsB)
    requires Complete(a, pool, anchorsA) && Complete(b, pool, anchorsB)
    ensures Rooted(a + b, pool, anchorsA + anchorsB) && Complete(a + b, pool, anchorsA + anchorsB)
  {
    IdsConcat(a, b);
  }

  /** Whatever `Descendants` collects comes from the pool and answers `id`
      or a comment collected; whatever in the pool answers one of those is
      collected. */
  lemma {:induction false} DescendantsClosed(pool: seq<Comment>, id: string)
    ensures Rooted(Descendants(pool, id), pool, {id}) && Complete(Descendants(pool, id), pool, {id})
    decreases |pool|, 1
  {
    var kids := ChildrenOf(pool, Some(id));
    var rest := OthersOf(pool, Some(id));
    var r := Descendants(pool, id);
    if kids != [] {
      var all := DescendantsOfAll(rest, kids);
      DescendantsOfAllClosed(rest, kids);
      assert r == kids + all;
      IdsConcat(kids, all);
      forall x | x in r ensures x in pool && x.parentId.Some? && x.parentId.value in Ids(r) + {id} {
        if x in all {
          assert x in rest;
        }
      }
      forall x | x in pool && x.parentId.Some? && x.parentId.value in Ids(r) + {id} ensures x in r {
        if x.parentId != Some(id) {
          assert x in rest;
          assert x in all;
        }
      }
    } else {
      forall x | x in pool && x.parentId.Some? && x.parentId.value in Ids(r) + {id} ensures x in r {
        assert x in kids;
      }
    }
  }

  lemma {:induction false} DescendantsOfAllClosed(pool: seq<Comment>, ks: seq<Comment>)
    ensures Rooted(DescendantsOfAll(pool, ks), pool, Ids(ks)) && Complete(DescendantsOfAll(pool, ks), pool, Ids(ks))
    decreases |pool|, |ks| + 1
  {
    if ks != [] {
      var init, last := ks[..|ks| - 1], ks[|ks| - 1];
      DescendantsOfAllClosed(pool, init);
      DescendantsClosed(pool, last.id);
      assert ks == init + [last];
      IdsConcat(init, [last]);
      JoinClosed(DescendantsOfAll(pool, init), Descendants(pool, last.id), pool, Ids(init), {last.id});
    }
  }

  /** `Descendants` collects no more than the subtree: any set of ids that
      holds `id` and every answer to one of its members holds them all. */
  lemma {:induction false} DescendantsLeast(pool: seq<Comment>, id: string, s: set<string>)
    requires id in s
    requires forall x :: x in pool && x.parentId.Some? && x.parentId.value in s ==> x.id in s
    ensures Ids(Descendants(pool, id)) <= s
    decreases |pool|, 1
  {
    var kids := ChildrenOf(pool, Some(id));
    var rest := OthersOf(pool, Some(id));
    if kids != [] {
      DescendantsOfAllLeast(rest, kids, s);
      assert Ids(Descendants(pool, id)) == Ids(kids) + Ids(DescendantsOfAll(rest, kids));
    }
  }

  lemma {:induction false} DescendantsOfAllLeast(pool: seq<Comment>, ks: seq<Comment>, s: set<string>)
    requires Ids(ks) <= s
    requires forall x :: x in pool && x.parentId.Some? && x.parentId.value in s ==> x.id in s
    ensures Ids(DescendantsOfAll(pool, ks)) <= s
    decreases |pool|, |ks| + 1
  {
    if ks != [] {
      var init, last := ks[..|ks| - 1], ks[|ks| - 1];
      assert ks == init + [last];
      assert Ids(init) <= Ids(ks) && last.id in Ids(ks);
      DescendantsOfAllLeast(pool, init, s);
      DescendantsLeast(pool, last.id, s);
      assert Ids(DescendantsOfAll(pool, ks)) == Ids(DescendantsOfAll(pool, init)) + Ids(Descendants(pool, last.id));
    }
  }

  // ---------------------------------------------------------------------------
  // Comments per author

  /** The authors of `xs`, each once, in order of first appearance: the keys
      of `groupBy { it.userId }`. */
  function Authors(xs: seq<Comment>): (us: seq<string>)
    ensures NoDuplicates(us)
    ensures forall u :: u in us <==> exists c :: c in xs && c.userId == u
    decreases |xs|
  {
    if xs == [] then []
    else
      var init, last := xs[..|xs| - 1], xs[|xs| - 1];
      assert xs == init + [last];
      var us := Authors(init);
      if last.userId in us then us else us + [last.userId]
  }

  /** The size of an author's group. */
  function CountBy(xs: seq<Comment>, u: string): nat
    decreases |xs|
  {
    if xs == [] then 0
    else CountBy(xs[..|xs| - 1], u) + (if xs[|xs| - 1].userId == u then 1 else 0)
  }

  /** The group sizes of the authors `us`, added up. */
  function SumCounts(us: seq<string>, xs: seq<Comment>): int
    decreases |us|
  {
    if us == [] then 0 else SumCounts(us[..|us| - 1], xs) + CountBy(xs, us[|us| - 1])
  }

  /** An author with no comment in the list has a group of size 0. */
  lemma {:induction false} CountByAbsent(xs: seq<Comment>, u: string)
    requires u !in Authors(xs)
    ensures CountBy(xs, u) == 0
    decreases |xs|
  {
    if xs != [] {
      var init := xs[..|xs| - 1];
      assert forall c :: c in init ==> c in xs;
      CountByAbsent(init, u);
    }
  }

  /** One more comment adds one to the group sizes of distinct authors when
      its author is among them, and nothing otherwise. */
  lemma {:induction false} SumCountsSnoc(us: seq<string>, xs: seq<Comment>, x: Comment)
    requires NoDuplicates(us)
    ensures SumCounts(us, xs + [x]) == SumCounts(us, xs) + (if x.userId in us then 1 else 0)
    decreases |us|
  {
    if us != [] {
      var init, last := us[..|us| - 1], us[|us| - 1];
      assert NoDuplicates(init);
      SumCountsSnoc(init, xs, x);
      assert (xs + [x])[..|xs|] == xs;
      assert x.userId in us <==> x.userId in init || x.userId == last by {
        assert us == init + [last];
      }
      assert last !in init;
    }
  }

  /** The groups of `groupBy { it.userId }` add up to the whole list: what
      the per-author counters lose after a deletion adds up to the number of
      comments deleted. */
  lemma {:induction false} GroupSizesAddUp(xs: seq<Comment>)
    ensures SumCounts(Authors(xs), xs) == |xs|
    decreases |xs|
  {
    if xs != [] {
      var init, x := xs[..|xs| - 1], xs[|xs| - 1];
      assert xs == init + [x];
      var us := Authors(init);
      GroupSizesAddUp(init);
      SumCountsSnoc(us, init, x);
      if x.userId !in us {
        CountByAbsent(init, x.userId);
        assert (us + [x.userId])[..|us|] == us;
      }
    }
  }
}
