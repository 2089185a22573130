/** The comment screen's state: the root comments the live query delivers,
    the replies loaded on demand per comment, and the tree the screen draws
    by grafting the loaded replies onto the roots. */
module CommentsViewModel {
  import opened Wrappers
  import opened Strings
  import opened Comments
  import opened CommentStore

  // ---------------------------------------------------------------------------
  // The drawn tree

  /** The nodes `replies` become under a node at depth `depth`: no replies
      of their own yet, one level deeper. */
  function ReplyNodes(replies: seq<Comment>, depth: int): (r: seq<CommentNode>)
    ensures |r| == |replies|
    ensures forall j :: 0 <= j < |r| ==> r[j].comment == replies[j] && r[j].replies == [] && r[j].depth == depth + 1
  {
    seq(|replies|, j requires 0 <= j < |replies| => CommentNode(replies[j], [], depth + 1))
  }

  /** `mergeTree`: each node keeps its comment and depth; a node whose
      replies are loaded shows exactly those replies, in their order, one
      level deeper, each merged in turn; any other node is left as it is.
      A key is dropped from `loaded` below the node that used it, so a
      comment listed among its own replies cannot be expanded twice. */
  function MergeTree(nodes: seq<CommentNode>, loaded: map<string, seq<Comment>>): (r: seq<CommentNode>)
    ensures |r| == |nodes|
    ensures forall i :: 0 <= i < |r| ==> r[i].comment == nodes[i].comment && r[i].depth == nodes[i].depth
    ensures forall i :: 0 <= i < |r| && nodes[i].comment.id !in loaded ==> r[i] == nodes[i]
    ensures forall i :: 0 <= i < |r| && nodes[i].comment.id in loaded ==>
      Shows(r[i], loaded[nodes[i].comment.id])
    decreases |loaded.Keys|, 1
  {
    seq(|nodes|, i requires 0 <= i < |nodes| => MergeNode(nodes[i], loaded))
  }

  /** `n` shows the comments `replies`, in order, one level below it. */
  predicate Shows(n: CommentNode, replies: seq<Comment>) {
    && |n.replies| == |replies|
    && forall j :: 0 <= j < |replies| ==> n.replies[j].comment == replies[j] && n.replies[j].depth == n.depth + 1
  }

  /** One node of `mergeTree`. */
  function MergeNode(node: CommentNode, loaded: map<string, seq<Comment>>): (r: CommentNode)
    ensures r.comment == node.comment && r.depth == node.depth
    ensures node.comment.id !in loaded ==> r == node
    ensures node.comment.id in loaded ==> Shows(r, loaded[node.comment.id])
    decreases |loaded.Keys|, 0
  {
    var id := node.comment.id;
    if id in loaded then
      var below := loaded - {id};
      assert below.Keys == loaded.Keys - {id};
      node.(replies := MergeTree(ReplyNodes(loaded[id], node.depth), below))
    else node
  }

  /** Every reply sits one level below the node it hangs from. */
  predicate Layered(n: CommentNode, d: int)
    decreases n
  {
    && n.depth == d
    && forall r :: r in n.replies ==> Layered(r, d + 1)
  }

  /** Grafting loaded replies keeps every reply one level below its node. */
  lemma {:induction false} MergeTreeLayered(nodes: seq<CommentNode>, loaded: map<string, seq<Comment>>, d: int)
    requires forall n :: n in nodes ==> Layered(n, d)
    ensures forall n :: n in MergeTree(nodes, loaded) ==> Layered(n, d)
    decreases |loaded.Keys|, 1
  {
    var r := MergeTree(nodes, loaded);
    forall n | n in r ensures Layered(n, d) {
      var i :| 0 <= i < |r| && r[i] == n;
      MergeNodeLayered(nodes[i], loaded, d);
    }
  }

  lemma {:induction false} MergeNodeLayered(node: CommentNode, loaded: map<string, seq<Comment>>, d: int)
    requires Layered(node, d)
    ensures Layered(MergeNode(node, loaded), d)
    decreases |loaded.Keys|, 0
  {
    var id := node.comment.id;
    if id in loaded {
      var below := loaded - {id};
      assert below.Keys == loaded.Keys - {id};
      var kids := ReplyNodes(loaded[id], node.depth);
      forall k | k in kids ensures Layered(k, d + 1) {
      }
      MergeTreeLayered(kids, below, d + 1);
    }
  }

  /** With nothing loaded the tree is the roots as delivered. */
  lemma MergeNothing(nodes: seq<CommentNode>)
    ensures MergeTree(nodes, map[]) == nodes
  {
  }

  // ---------------------------------------------------------------------------
  // The screen state

  /** The text shown when loading replies fails; a failure without a
      message reads "null". */
  function LoadRepliesError(message: Option<string>): (s: string)
    ensures StartsWith(s, "Error loading replies: ")
    ensures message.Some? ==> s[|"Error loading replies: "|..] == message.value
  {
    "Error loading replies: " + (match message case Some(m) => m case None => "null")
  }

  class CommentsViewModel {
    var roots: seq<CommentNode>
    var loaded: map<string, seq<Comment>>
    var loadingFor: set<string>
    var isLoading: bool
    var commentCount: int
    var error: Option<string>
    var replyingTo: Option<CommentNode>
    var articleLink: Option<string>
    var articleTitle: string

    /** `comments`: the roots with the loaded replies grafted on. */
    function Shown(): seq<CommentNode>
      reads this
    {
      MergeTree(roots, loaded)
    }

    constructor()
      ensures roots == [] && loaded == map[] && loadingFor == {}
      ensures !isLoading && commentCount == 0 && error.None? && replyingTo.None?
      ensures articleLink.None? && articleTitle == ""
    {
      roots := [];
      loaded := map[];
      loadingFor := {};
      isLoading := false;
      commentCount := 0;
      error := None;
      replyingTo := None;
      articleLink := None;
      articleTitle := "";
    }

    /** `loadComments`: remembers the article and waits for its roots. */
    method LoadComments(link: string, title: string)
      modifies this`articleLink, this`articleTitle, this`isLoading
      ensures articleLink == Some(link) && articleTitle == title && isLoading
    {
      articleLink := Some(link);
      articleTitle := title;
      isLoading := true;
    }

    /** A delivery of the live root query. */
    method ReceiveRoots(nodes: seq<CommentNode>)
      modifies this`roots, this`isLoading
      ensures roots == nodes && !isLoading
    {
      roots := nodes;
      isLoading := false;
    }

    /** A delivery of the live comment count. */
    method ReceiveCount(count: int)
      modifies this`commentCount
      ensures commentCount == count
    {
      commentCount := count;
    }

    /** `loadReplies`, up to the query: nothing happens without an article
        or while the same comment's replies are already being loaded;
        otherwise the comment is marked as loading. */
    method BeginLoadReplies(commentId: string) returns (started: bool)
      modifies this`loadingFor
      ensures started <==> articleLink.Some? && commentId !in old(loadingFor)
      ensures loadingFor == if started then old(loadingFor) + {commentId} else old(loadingFor)
    {
      started := articleLink.Some? && commentId !in loadingFor;
      if started {
        loadingFor := loadingFor + {commentId};
      }
    }

    /** `loadReplies`, once the query answers: the replies are stored for
        the comment, replacing any loaded before, and every node of that
        comment shows them; a failure is reported instead. Either way the
        comment is no longer loading. */
    method FinishLoadReplies(commentId: string, fetched: Result<seq<Comment>, Option<string>>)
      modifies this`loaded, this`error, this`loadingFor
      ensures fetched.Ok? ==> loaded == old(loaded)[commentId := fetched.value] && error == old(error)
      ensures fetched.Ok? ==> forall i :: 0 <= i < |roots| && roots[i].comment.id == commentId ==>
        Shows(Shown()[i], fetched.value)
      ensures fetched.Err? ==> loaded == old(loaded) && error == Some(LoadRepliesError(fetched.error))
      ensures loadingFor == old(loadingFor) - {commentId}
    {
      match fetched {
        case Ok(replies) =>
          loaded := loaded[commentId := replies];
        case Err(message) =>
          error := Some(LoadRepliesError(message));
      }
      loadingFor := loadingFor - {commentId};
    }

    /** `addComment`, with the repository's answer: a reply to the comment
        being answered is appended to that comment's loaded replies, so it
        shows at once at the end of them; a root comment waits for the live
        query. A failure's message becomes the error. Either way the screen
        stops answering and stops loading. Without an article nothing
        happens. */
    method AddComment(outcome: Result<Comment, Option<string>>)
      modifies this`loaded, this`error, this`replyingTo, this`isLoading
      ensures articleLink.None? ==>
        loaded == old(loaded) && error == old(error) && replyingTo == old(replyingTo) && isLoading == old(isLoading)
      ensures articleLink.Some? ==> replyingTo.None? && !isLoading
      ensures articleLink.Some? && outcome.Ok? && old(replyingTo).Some? ==>
        var p := old(replyingTo).value.comment.id;
        loaded == old(loaded)[p := old(if p in loaded then loaded[p] else []) + [outcome.value]]
      ensures articleLink.Some? && outcome.Ok? && old(replyingTo).Some? ==>
        forall i :: 0 <= i < |roots| && roots[i].comment.id == old(replyingTo).value.comment.id ==>
          |Shown()[i].replies| > 0 && Shown()[i].replies[|Shown()[i].replies| - 1].comment == outcome.value
      ensures articleLink.Some? && outcome.Ok? && old(replyingTo).None? ==> loaded == old(loaded)
      ensures articleLink.Some? ==> error == (if outcome.Err? then outcome.error else old(error))
    {
      if articleLink.None? {
        return;
      }
      var parent := replyingTo;
      isLoading := true;
      match outcome {
        case Ok(c) =>
          if parent.Some? {
            var p := parent.value.comment.id;
            var existing := if p in loaded then loaded[p] else [];
            loaded := loaded[p := existing + [c]];
          }
        case Err(message) =>
          error := message;
      }
      replyingTo := None;
      isLoading := false;
    }

    /** `likeComment` and `dislikeComment`: only a failure shows, as the
        error; without an article nothing happens. */
    method Vote(outcome: Result<(), Option<string>>)
      modifies this`error
      ensures error == if articleLink.Some? && outcome.Err? then outcome.error else old(error)
    {
      if articleLink.Some? && outcome.Err? {
        error := outcome.error;
      }
    }

    /** `deleteComment`, with the repository's answer: on success, the first
        loaded reply list holding the comment loses it and no other list
        changes; a failure's message becomes the error. Which list comes
        first when several hold the comment is left open. */
    method DeleteComment(commentId: string, outcome: Result<(), Option<string>>)
      modifies this`loaded, this`error
      ensures articleLink.None? || outcome.Ok? ==> error == old(error)
      ensures articleLink.Some? && outcome.Err? ==> error == outcome.error
      ensures articleLink.None? || outcome.Err? ==> loaded == old(loaded)
      ensures articleLink.Some? && outcome.Ok? ==>
        if exists pid :: pid in old(loaded) && commentId in Ids(old(loaded)[pid]) then
          exists pid :: pid in old(loaded) && commentId in Ids(old(loaded)[pid]) &&
            loaded == old(loaded)[pid := Without(old(loaded)[pid], {commentId})]
        else loaded == old(loaded)
    {
      if articleLink.None? {
        return;
      }
      if outcome.Err? {
        error := outcome.error;
        return;
      }
      var current := loaded;
      var found: Option<string> := None;
      var keys := loaded.Keys;
      while keys != {} && found.None?
        invariant keys <= loaded.Keys
        invariant found.None? ==> current == loaded
        invariant found.None? ==> forall pid :: pid in loaded && pid !in keys ==> commentId !in Ids(loaded[pid])
        invariant found.Some? ==>
          && found.value in loaded && commentId in Ids(loaded[found.value])
          && current == loaded[found.value := Without(loaded[found.value], {commentId})]
        decreases |keys|
      {
        var pid :| pid in keys;
        if commentId in Ids(current[pid]) {
          current := current[pid := Without(current[pid], {commentId})];
          found := Some(pid);
        }
        keys := keys - {pid};
      }
      if found.Some? {
        loaded := current;
      }
    }

    /** `setReplyingTo`. */
    method SetReplyingTo(node: Option<CommentNode>)
      modifies this`replyingTo
      ensures replyingTo == node
    {
      replyingTo := node;
    }

    /** `clearError`. */
    method ClearError()
      modifies this`error
      ensures error.None?
    {
      error := None;
    }
  }
}
