/**
 * The node directory's list: the nodes ordered by topic count, most first; with a blank
 * search the first hundred of them, otherwise every node whose title or name contains the
 * search text, ignoring case.
 */
module Nodes {
  import opened Text
  import opened Types
  import opened Seqs

  /** How many nodes the directory shows without a search. */
  const Cap := 100

  ghost predicate Descending(s: seq<Node>) {
    forall i, j :: 0 <= i < j < |s| ==> s[i].topics >= s[j].topics
  }

  /** Places `x` before the first node with fewer topics; ties keep `x` first, which is
      what a stable sort does for an element that came earlier. */
  function Insert(x: Node, s: seq<Node>): (r: seq<Node>)
    ensures multiset(r) == multiset(s) + multiset{x}
  {
    if s == [] || s[0].topics <= x.topics then [x] + s
    else
      assert s == [s[0]] + s[1..];
      [s[0]] + Insert(x, s[1..])
  }

  lemma {:induction false} InsertKeepsOrder(x: Node, s: seq<Node>)
    requires Descending(s)
    ensures Descending(Insert(x, s))
  {
    if s != [] && s[0].topics > x.topics {
      var rest := Insert(x, s[1..]);
      InsertKeepsOrder(x, s[1..]);
      forall k | 0 <= k < |rest| ensures rest[k].topics <= s[0].topics {
        assert rest[k] in multiset(rest);
        assert rest[k] == x || rest[k] in multiset(s[1..]);
      }
    }
  }

  /** `[...nodes].sort((a, b) => b.topics - a.topics)`: a sorted copy; the input list
      itself is a value and is not changed. */
  function SortByTopics(nodes: seq<Node>): (r: seq<Node>)
    ensures multiset(r) == multiset(nodes)
  {
    if nodes == [] then []
    else
      assert nodes == [nodes[0]] + nodes[1..];
      Insert(nodes[0], SortByTopics(nodes[1..]))
  }

  lemma {:induction false} SortIsDescending(nodes: seq<Node>)
    ensures Descending(SortByTopics(nodes))
  {
    if nodes != [] {
      SortIsDescending(nodes[1..]);
      InsertKeepsOrder(nodes[0], SortByTopics(nodes[1..]));
    }
  }

  /** The search text occurs in the node's title or name, both lowered. An empty search
      matches every node. */
  function Matches(n: Node, query: string): (b: bool)
    ensures query == "" ==> b
  {
    Includes(Lower(n.title), Lower(query)) || Includes(Lower(n.name), Lower(query))
  }

  /** The nodes of `s` that match, in their order. */
  function Keep(s: seq<Node>, query: string): (r: seq<Node>)
    ensures forall i :: 0 <= i < |r| ==> Matches(r[i], query)
    ensures forall x :: x in r <==> x in s && Matches(x, query)
  {
    if s == [] then []
    else (if Matches(s[0], query) then [s[0]] else []) + Keep(s[1..], query)
  }

  lemma {:induction false} KeepIsSubsequence(s: seq<Node>, query: string)
    ensures Subsequence(Keep(s, query), s)
  {
    if s != [] {
      KeepIsSubsequence(s[1..], query);
      var r, tail := Keep(s, query), Keep(s[1..], query);
      if Matches(s[0], query) {
        assert r == [s[0]] + tail;
        assert r[0] == s[0] && r[1..] == tail;
      } else {
        assert r == tail;
      }
    }
  }

  lemma {:induction false} SubsequenceOfDescending(a: seq<Node>, b: seq<Node>)
    requires Subsequence(a, b) && Descending(b)
    ensures Descending(a)
    ensures forall i :: 0 <= i < |a| ==> a[i] in b
    decreases |b|
  {
    if a != [] {
      if a[0] == b[0] && Subsequence(a[1..], b[1..]) {
        SubsequenceOfDescending(a[1..], b[1..]);
        forall i | 1 <= i < |a| ensures a[0].topics >= a[i].topics {
          assert a[i] == a[1..][i - 1];
          var k :| 0 <= k < |b[1..]| && b[1..][k] == a[i];
          assert b[k + 1] == a[i];
        }
        forall i | 0 <= i < |a| ensures a[i] in b {
          if i > 0 {
            assert a[i] == a[1..][i - 1];
          }
        }
      } else {
        SubsequenceOfDescending(a, b[1..]);
      }
    }
  }

  /** The directory's `filtered` list: nodes of the input only, at most a hundred of them
      for a blank search, and only matching ones for any other search. */
  function Filtered(nodes: seq<Node>, search: string): (r: seq<Node>)
    ensures forall i :: 0 <= i < |r| ==> r[i] in nodes
    ensures Trim(search) == "" ==> |r| <= Cap
    ensures Trim(search) != "" ==> forall i :: 0 <= i < |r| ==> Matches(r[i], search)
  {
    var sorted := SortByTopics(nodes);
    var r := Shown(sorted, search);
    SortedHasSameNodes(nodes);
    ShownComesFromSorted(sorted, search);
    r
  }

  /** What the directory shows of the already sorted list. */
  function Shown(sorted: seq<Node>, search: string): seq<Node> {
    if Trim(search) == "" then sorted[..if |sorted| <= Cap then |sorted| else Cap]
    else Keep(sorted, search)
  }

  lemma ShownComesFromSorted(sorted: seq<Node>, search: string)
    ensures forall i :: 0 <= i < |Shown(sorted, search)| ==> Shown(sorted, search)[i] in sorted
    ensures Trim(search) == "" ==> |Shown(sorted, search)| <= Cap
    ensures Trim(search) != "" ==>
      forall i :: 0 <= i < |Shown(sorted, search)| ==> Matches(Shown(sorted, search)[i], search)
  {
    var r := Shown(sorted, search);
    var blank := Trim(search) == "";
    if blank {
      var n := if |sorted| <= Cap then |sorted| else Cap;
      assert r == sorted[..n];
      forall i | 0 <= i < |r| ensures r[i] in sorted {
        assert r[i] == sorted[i];
      }
    } else {
      assert r == Keep(sorted, search);
      forall i | 0 <= i < |r| ensures r[i] in sorted {
        assert r[i] in r;
      }
    }
  }

  lemma SortedHasSameNodes(nodes: seq<Node>)
    ensures forall x :: x in SortByTopics(nodes) ==> x in nodes
  {
    forall x | x in SortByTopics(nodes) ensures x in nodes {
      assert x in multiset(SortByTopics(nodes));
    }
  }

  /** The list is always a subsequence of the sorted nodes, so it is ordered by topic
      count, most first. */
  lemma FilteredIsOrderedSubsequence(nodes: seq<Node>, search: string)
    ensures Subsequence(Filtered(nodes, search), SortByTopics(nodes))
    ensures Descending(Filtered(nodes, search))
  {
    var sorted := SortByTopics(nodes);
    var r := Filtered(nodes, search);
    SortIsDescending(nodes);
    ShownIsSubsequence(sorted, search, r);
    SubsequenceOfDescending(r, sorted);
  }

  lemma ShownIsSubsequence(sorted: seq<Node>, search: string, r: seq<Node>)
    requires r == Shown(sorted, search)
    ensures Subsequence(r, sorted)
  {
    var blank := Trim(search) == "";
    if blank {
      var n := if |sorted| <= Cap then |sorted| else Cap;
      assert r == sorted[..n];
      PrefixIsSubsequence(sorted[..n], sorted);
    } else {
      assert r == Keep(sorted, search);
      KeepIsSubsequence(sorted, search);
    }
  }

  /** A blank or white-space search shows the first min(100, n) nodes of the sorted list. */
  lemma BlankSearchShowsFirstHundred(nodes: seq<Node>, search: string)
    requires AllSpace(search)
    ensures |Filtered(nodes, search)| == if |nodes| <= Cap then |nodes| else Cap
    ensures Filtered(nodes, search) <= SortByTopics(nodes)
  {
    var sorted := SortByTopics(nodes);
    assert |sorted| == |multiset(sorted)| == |multiset(nodes)| == |nodes|;
  }

  /** Any other search shows exactly the nodes whose lowered title or name contains the
      lowered (untrimmed) search text, with no cap. */
  lemma SearchShowsExactlyTheMatches(nodes: seq<Node>, search: string, x: Node)
    requires !AllSpace(search)
    ensures x in Filtered(nodes, search) <==> x in nodes && Matches(x, search)
    ensures multiset(Filtered(nodes, search))[x] == if Matches(x, search) then multiset(nodes)[x] else 0
  {
    var sorted := SortByTopics(nodes);
    assert x in sorted <==> x in multiset(sorted);
    assert x in nodes <==> x in multiset(nodes);
    KeepCount(sorted, search, x);
  }

  lemma {:induction false} KeepCount(s: seq<Node>, query: string, x: Node)
    ensures multiset(Keep(s, query))[x] == if Matches(x, query) then multiset(s)[x] else 0
  {
    if s != [] {
      KeepCount(s[1..], query, x);
      assert s == [s[0]] + s[1..];
    }
  }
}
