/**
  The aggregate-subquery finder: a visitor that walks an expression tree and
  lists every aggregate sub-query node in the order it reaches them, nested
  ones included, without rewriting the tree.
*/
module AggregateSubqueryFinders {

  /**
    An expression tree node as the visitor sees it: an aggregate sub-query or
    any other kind, each with its child expressions in visiting order.
  */
  datatype Node =
    | AggregateSubquery(tag: string, children: seq<Node>)
    | OtherNode(tag: string, children: seq<Node>)

  /** Every node of the tree, each before its children, children left to right. */
  function Subterms(e: Node): (r: seq<Node>)
    ensures |r| >= 1 && r[0] == e
    decreases e, 1
  {
    [e] + SubtermsOf(e.children)
  }

  function SubtermsOf(cs: seq<Node>): seq<Node>
    decreases cs, 0
  {
    if cs == [] then [] else Subterms(cs[0]) + SubtermsOf(cs[1..])
  }

  /** The aggregate sub-queries among a list of nodes, in list order. */
  function KeepAggregates(s: seq<Node>): (r: seq<Node>)
    ensures |r| <= |s|
    ensures forall x :: x in r ==> x in s && x.AggregateSubquery?
  {
    if s == [] then [] else (if s[0].AggregateSubquery? then [s[0]] else []) + KeepAggregates(s[1..])
  }

  lemma {:induction false} KeepAggregatesAppend(a: seq<Node>, b: seq<Node>)
    ensures KeepAggregates(a + b) == KeepAggregates(a) + KeepAggregates(b)
  {
    if a == [] {
      assert a + b == b;
    } else {
      assert (a + b)[1..] == a[1..] + b;
      KeepAggregatesAppend(a[1..], b);
    }
  }

  /** What the finder records for a tree: the node itself if it is an aggregate, then what its children give. */
  function Aggregates(e: Node): seq<Node>
    decreases e, 1
  {
    (if e.AggregateSubquery? then [e] else []) + AggregatesOf(e.children)
  }

  function AggregatesOf(cs: seq<Node>): seq<Node>
    decreases cs, 0
  {
    if cs == [] then [] else Aggregates(cs[0]) + AggregatesOf(cs[1..])
  }

  /**
    The finder lists exactly the aggregate sub-queries of the tree, in the
    visitor's pre-order: each one before those nested inside it.
  */
  lemma {:induction false} AggregatesInVisitOrder(e: Node)
    ensures Aggregates(e) == KeepAggregates(Subterms(e))
    decreases e, 1
  {
    AggregatesOfInVisitOrder(e.children);
    KeepAggregatesAppend([e], SubtermsOf(e.children));
  }

  lemma {:induction false} AggregatesOfInVisitOrder(cs: seq<Node>)
    ensures AggregatesOf(cs) == KeepAggregates(SubtermsOf(cs))
    decreases cs, 0
  {
    if cs != [] {
      AggregatesInVisitOrder(cs[0]);
      AggregatesOfInVisitOrder(cs[1..]);
      KeepAggregatesAppend(Subterms(cs[0]), SubtermsOf(cs[1..]));
    }
  }

  /**
    Every node found is an aggregate sub-query of the tree; the list is empty
    exactly when the tree holds none; and an aggregate at the root comes first,
    ahead of the ones nested in it.
  */
  lemma FoundAreTheAggregates(e: Node)
    ensures forall x :: x in Aggregates(e) ==> x.AggregateSubquery? && x in Subterms(e)
    ensures Aggregates(e) == [] <==> forall x :: x in Subterms(e) ==> !x.AggregateSubquery?
    ensures e.AggregateSubquery? ==> Aggregates(e)[0] == e
  {
    AggregatesInVisitOrder(e);
    if Aggregates(e) == [] {
      forall x | x in Subterms(e) ensures !x.AggregateSubquery? {
        NoneKept(Subterms(e), x);
      }
    } else {
      assert Aggregates(e)[0] in KeepAggregates(Subterms(e));
    }
  }

  lemma {:induction false} NoneKept(s: seq<Node>, x: Node)
    requires KeepAggregates(s) == [] && x in s
    ensures !x.AggregateSubquery?
  {
    if s[0] != x {
      NoneKept(s[1..], x);
    }
  }

  /** The finder, with the list it fills during the visit. */
  class AggregateSubqueryFinder {
    var aggregatesFound: seq<Node>

    constructor()
      ensures aggregatesFound == []
    {
      aggregatesFound := [];
    }

    /** The visitor's dispatch: aggregate sub-queries are recorded, every node is descended into. */
    method Visit(e: Node) returns (r: Node)
      modifies this
      ensures r == e && aggregatesFound == old(aggregatesFound) + Aggregates(e)
      decreases e, 2
    {
      if e.AggregateSubquery? {
        r := VisitAggregateSubquery(e);
      } else {
        r := VisitChildren(e);
      }
    }

    /** Records the aggregate, then visits it as the base visitor does. */
    method VisitAggregateSubquery(e: Node) returns (r: Node)
      requires e.AggregateSubquery?
      modifies this
      ensures r == e && aggregatesFound == old(aggregatesFound) + Aggregates(e)
      decreases e, 1
    {
      aggregatesFound := aggregatesFound + [e];
      r := VisitChildren(e);
    }

    /** The base visitor: visits each child in order and, nothing being rewritten, gives the node back. */
    method VisitChildren(e: Node) returns (r: Node)
      modifies this
      ensures r == e && aggregatesFound == old(aggregatesFound) + AggregatesOf(e.children)
      decreases e, 0
    {
      var cs := e.children;
      var i := 0;
      while i < |cs|
        invariant 0 <= i <= |cs|
        invariant aggregatesFound == old(aggregatesFound) + AggregatesOf(cs[..i])
      {
        var _ := Visit(cs[i]);
        AggregatesOfSnoc(cs, i);
        i := i + 1;
      }
      assert cs[..i] == cs;
      r := e;
    }

    /** A fresh finder visits the tree; the list it filled is the answer. */
    static method Find(e: Node) returns (r: seq<Node>)
      ensures r == Aggregates(e)
    {
      var finder := new AggregateSubqueryFinder();
      var _ := finder.Visit(e);
      r := finder.aggregatesFound;
    }
  }

  lemma {:induction false} AggregatesOfSnoc(cs: seq<Node>, i: nat)
    requires i < |cs|
    ensures AggregatesOf(cs[..i + 1]) == AggregatesOf(cs[..i]) + Aggregates(cs[i])
  {
    AggregatesOfAppend(cs[..i], [cs[i]]);
    assert cs[..i + 1] == cs[..i] + [cs[i]];
    assert AggregatesOf([cs[i]]) == Aggregates(cs[i]) + AggregatesOf([]);
  }

  lemma {:induction false} AggregatesOfAppend(a: seq<Node>, b: seq<Node>)
    ensures AggregatesOf(a + b) == AggregatesOf(a) + AggregatesOf(b)
  {
    if a == [] {
      assert a + b == b;
    } else {
      assert (a + b)[1..] == a[1..] + b;
      AggregatesOfAppend(a[1..], b);
    }
  }
}
