/**
 * Commenter extraction from a post's JSON: the comment edges are read from
 * "edge_media_to_parent_comment" when that key is present, otherwise from
 * "edge_media_to_comment", and the usernames are collected in order of first
 * appearance without duplicates.
 */
module Comments {
  import opened Wrappers

  /** An edge's `owner` object; `username` is `None` when the key is missing or null. */
  datatype Owner = Owner(username: Option<string>)

  /** An edge's `node` object; `owner` is `None` when the key is missing. */
  datatype Node = Node(owner: Option<Owner>)

  /** One element of `edges`; `node` is `None` when the key is missing. */
  datatype Edge = Edge(node: Option<Node>)

  /**
   * The value stored under a comment key: a falsy value (null, `{}`), or a
   * non-empty object whose `edges` may be missing.
   */
  datatype CommentData = Falsy | Listing(edges: Option<seq<Edge>>)

  /** The `shortcode_media` object, reduced to its two comment keys (`None`: key absent). */
  datatype Post = Post(parentComments: Option<CommentData>, comments: Option<CommentData>)

  /** `comment_data`: the parent-comment key wins whenever it is present. */
  function ChosenData(p: Post): Option<CommentData>
  {
    if p.parentComments.Some? then p.parentComments else p.comments
  }

  /** `comment_data.get("edges", [])`, or nothing when `comment_data` is falsy. */
  function EdgesOf(d: Option<CommentData>): seq<Edge>
  {
    match d
    case Some(Listing(Some(edges))) => edges
    case _ => []
  }

  /** `edge.get("node", {}).get("owner", {}).get("username")`, kept only when truthy. */
  function UsernameOf(e: Edge): (u: Option<string>)
    ensures u.Some? ==> u.value != ""
  {
    match e.node
    case Some(Node(Some(Owner(Some(name))))) => if name != "" then Some(name) else None
    case _ => None
  }

  /**
   * The username of every edge of the chosen list, in order: one entry per
   * edge, and a name appears exactly when some edge of that list carries it.
   */
  function Candidates(p: Post): (r: seq<Option<string>>)
    ensures |r| == |EdgesOf(ChosenData(p))|
    ensures forall u :: Some(u) in r <==> exists e :: e in EdgesOf(ChosenData(p)) && UsernameOf(e) == Some(u)
  {
    var edges := EdgesOf(ChosenData(p));
    var r := seq(|edges|, i requires 0 <= i < |edges| => UsernameOf(edges[i]));
    assert forall u :: Some(u) in r <==> exists e :: e in edges && UsernameOf(e) == Some(u) by {
      forall u | exists e :: e in edges && UsernameOf(e) == Some(u)
        ensures Some(u) in r
      {
        var e :| e in edges && UsernameOf(e) == Some(u);
        var i :| 0 <= i < |edges| && edges[i] == e;
        assert r[i] == Some(u);
      }
    }
    r
  }

  /** The names present in `xs`, each at its first occurrence, in order. */
  function KeepFirst(xs: seq<Option<string>>): seq<string>
  {
    if xs == [] then []
    else
      var kept := KeepFirst(xs[..|xs| - 1]);
      match xs[|xs| - 1]
      case Some(u) => if u in kept then kept else kept + [u]
      case None => kept
  }

  /** Index of the first occurrence of `x` in `xs`. */
  function FirstIndex<T(==)>(xs: seq<T>, x: T): (k: nat)
    requires x in xs
    ensures k < |xs| && xs[k] == x && x !in xs[..k]
  {
    if xs[0] == x then 0
    else
      assert x in xs[1..];
      var k := FirstIndex(xs[1..], x);
      assert xs[1..][..k] == xs[1..k + 1];
      k + 1
  }

  /** A name is kept exactly when it occurs. */
  lemma {:induction false} KeepFirstMembers(xs: seq<Option<string>>)
    ensures forall u :: u in KeepFirst(xs) <==> Some(u) in xs
  {
    if xs != [] {
      var init := xs[..|xs| - 1];
      KeepFirstMembers(init);
      assert xs == init + [xs[|xs| - 1]];
    }
  }

  /** The last step of `KeepFirst`: the last name is appended when it is new. */
  lemma KeepFirstLast(xs: seq<Option<string>>)
    requires xs != []
    ensures var kept := KeepFirst(xs[..|xs| - 1]); var last := xs[|xs| - 1];
      KeepFirst(xs) == if last.Some? && last.value !in kept then kept + [last.value] else kept
  {
  }

  /** `KeepFirst` one element at a time. */
  lemma KeepFirstAppend(xs: seq<Option<string>>, x: Option<string>)
    ensures KeepFirst(xs + [x]) ==
      if x.Some? && x.value !in KeepFirst(xs) then KeepFirst(xs) + [x.value] else KeepFirst(xs)
  {
    assert (xs + [x])[..|xs|] == xs;
  }

  /** No name is kept twice. */
  lemma {:induction false} KeepFirstDistinct(xs: seq<Option<string>>)
    ensures var r := KeepFirst(xs); forall i, j :: 0 <= i < j < |r| ==> r[i] != r[j]
  {
    if xs != [] {
      var kept := KeepFirst(xs[..|xs| - 1]);
      KeepFirstDistinct(xs[..|xs| - 1]);
      KeepFirstLast(xs);
      var last := xs[|xs| - 1];
      if last.Some? && last.value !in kept {
        var r := kept + [last.value];
        forall i, j | 0 <= i < j < |r|
          ensures r[i] != r[j]
        {
          if j == |kept| {
            assert r[i] == kept[i];
          }
        }
      }
    }
  }

  /** Kept names appear in the order of their first occurrences. */
  lemma {:induction false} KeepFirstOrder(xs: seq<Option<string>>)
    ensures var r := KeepFirst(xs);
      forall i, j :: 0 <= i < j < |r| ==>
        Some(r[i]) in xs && Some(r[j]) in xs && FirstIndex(xs, Some(r[i])) < FirstIndex(xs, Some(r[j]))
  {
    if xs != [] {
      var init := xs[..|xs| - 1];
      var kept := KeepFirst(init);
      KeepFirstOrder(init);
      KeepFirstMembers(init);
      KeepFirstLast(xs);
      assert xs == init + [xs[|xs| - 1]];
      forall u | Some(u) in init
        ensures FirstIndex(xs, Some(u)) == FirstIndex(init, Some(u))
      {
        FirstIndexPrefix(init, xs, Some(u));
      }
      var last := xs[|xs| - 1];
      if last.Some? && last.value !in kept {
        var r := kept + [last.value];
        assert FirstIndex(xs, last) == |xs| - 1;
        forall i, j | 0 <= i < j < |r|
          ensures Some(r[i]) in xs && Some(r[j]) in xs && FirstIndex(xs, Some(r[i])) < FirstIndex(xs, Some(r[j]))
        {
          assert r[i] == kept[i] && Some(kept[i]) in init;
          if j < |kept| {
            assert r[j] == kept[j] && Some(kept[j]) in init;
          }
        }
      }
    }
  }

  /** Extending a sequence does not move the first occurrence of an element already in it. */
  lemma FirstIndexPrefix<T>(init: seq<T>, xs: seq<T>, x: T)
    requires init <= xs && x in init
    ensures FirstIndex(xs, x) == FirstIndex(init, x)
  {
    var k := FirstIndex(init, x);
    var k' := FirstIndex(xs, x);
    assert xs[..k] == init[..k];
    assert xs[k] == x && x in xs[..k + 1];
    assert forall m :: 0 <= m < k ==> xs[..k][m] == xs[m];
    assert forall m :: 0 <= m < k' ==> xs[..k'][m] == xs[m];
  }

  /**
   * `extract_comment_usernames`: walks the chosen edge list, appending each
   * truthy username not already collected.
   */
  method ExtractCommentUsernames(p: Post) returns (usernames: seq<string>)
    ensures usernames == KeepFirst(Candidates(p))
    ensures forall u :: u in usernames <==> Some(u) in Candidates(p)
    ensures forall i, j :: 0 <= i < j < |usernames| ==> usernames[i] != usernames[j]
    ensures forall i, j :: 0 <= i < j < |usernames| ==>
      FirstIndex(Candidates(p), Some(usernames[i])) < FirstIndex(Candidates(p), Some(usernames[j]))
    ensures "" !in usernames
  {
    usernames := [];
    var commentData := ChosenData(p);
    var cands := Candidates(p);
    if commentData.Some? && commentData.value.Listing? {
      var edges := EdgesOf(commentData);
      for n := 0 to |edges|
        invariant usernames == KeepFirst(cands[..n])
      {
        var username := UsernameOf(edges[n]);
        assert cands[..n + 1][..n] == cands[..n];
        if username.Some? && username.value !in usernames {
          usernames := usernames + [username.value];
        }
      }
      assert cands[..|edges|] == cands;
    }
    KeepFirstMembers(cands);
    KeepFirstDistinct(cands);
    KeepFirstOrder(cands);
  }

  /**
   * Whenever the parent-comment key is present its value alone decides the
   * result, whatever "edge_media_to_comment" holds. No names come out when
   * the chosen value is falsy (under either key), when it is an object
   * without "edges", or when both keys are absent.
   */
  lemma ParentKeyWins(p: Post, q: Post)
    ensures p.parentComments.Some? && p.parentComments == q.parentComments ==>
      KeepFirst(Candidates(p)) == KeepFirst(Candidates(q))
    ensures p.parentComments == Some(Falsy) ==> KeepFirst(Candidates(p)) == []
    ensures p.parentComments.None? && p.comments == Some(Falsy) ==> KeepFirst(Candidates(p)) == []
    ensures ChosenData(p) == Some(Listing(None)) ==> KeepFirst(Candidates(p)) == []
    ensures p.parentComments.None? && p.comments.None? ==> KeepFirst(Candidates(p)) == []
  {
    if p.parentComments.Some? && p.parentComments == q.parentComments {
      assert Candidates(p) == Candidates(q);
    }
  }

  function Commenter(name: string): Edge
  {
    Edge(Some(Node(Some(Owner(Some(name))))))
  }

  /** Repeats, an empty name and an edge without owner are skipped. */
  lemma KeepFirstExample()
    ensures KeepFirst([Some("alice"), Some("bob"), Some("alice"), None, None, Some("carl")]) ==
      ["alice", "bob", "carl"]
  {
    var a, b, e := Some("alice"), Some("bob"), Some("carl");
    KeepFirstAppend([], a);
    assert [] + [a] == [a];
    KeepFirstAppend([a], b);
    assert [a] + [b] == [a, b];
    KeepFirstAppend([a, b], a);
    assert [a, b] + [a] == [a, b, a];
    KeepFirstAppend([a, b, a], None);
    assert [a, b, a] + [None] == [a, b, a, None];
    KeepFirstAppend([a, b, a, None], None);
    assert [a, b, a, None] + [None] == [a, b, a, None, None];
    KeepFirstAppend([a, b, a, None, None], e);
    assert [a, b, a, None, None] + [e] == [a, b, a, None, None, e];
  }

  /** The sample post's parent comments, with one extra comment under the other key. */
  function SamplePost(): Post
  {
    var parent := [Commenter("alice"), Commenter("bob"), Commenter("alice"),
                   Commenter(""), Edge(Some(Node(None))), Commenter("carl")];
    Post(Some(Listing(Some(parent))), Some(Listing(Some([Commenter("zed")]))))
  }

  /** "zed", under the comment key, is ignored because the parent-comment key is present. */
  lemma ExtractExample()
    ensures KeepFirst(Candidates(SamplePost())) == ["alice", "bob", "carl"]
  {
    assert Candidates(SamplePost()) == [Some("alice"), Some("bob"), Some("alice"), None, None, Some("carl")];
    KeepFirstExample();
  }
}
