/** What the visibility rule says of isolation. */
module ScopeIsolation {
  import opened Scope
  import opened ScopeBlocks
  import opened ScopeVisibility
  import opened Options

  ghost predicate NoSetOperators(items: seq<Item>) {
    forall k :: 0 <= k < |items| ==> !items[k].SetOperator?
  }

  // ----- Subqueries -----

  lemma {:induction false} SeesWithoutArms(items: seq<Item>, b: Block, target: Block)
    requires NoSetOperators(items)
    ensures Sees(items, b, target, false) <==> Encloses(target, b)
  {
    if b.Inside? { SeesWithoutArms(items, b.outer, target); }
  }

  /**
   Without set operators and `WITH`, for any parentheses at all: a cursor sees exactly the tables
   of the parentheses open around it. None of an enclosing block is lost and none of a closed
   subquery is listed.
   */
  lemma {:induction false} SubqueryScoping(items: seq<Item>, c: nat, name: string)
    requires NoWith(items) && NoSetOperators(items)
    ensures HasTableNamed(Resolve(items, Some(c)).tables, name)
            <==> exists k :: 0 <= k < |items| && Declares(items[k], name)
                             && Encloses(Lexical(items, k), CursorBlock(items, c))
  {
    hide Resolve, HasTableNamed, Declares;
    VisibleTables(items, c, name);
    forall k | 0 <= k < |items|
      ensures Sees(items, CursorBlock(items, c), Lexical(items, k), false)
              <==> Encloses(Lexical(items, k), CursorBlock(items, c))
    {
      SeesWithoutArms(items, CursorBlock(items, c), Lexical(items, k));
    }
    if exists k :: 0 <= k < |items| && VisibleFrom(items, c, k, name) {
      var k :| 0 <= k < |items| && VisibleFrom(items, c, k, name);
      assert Declares(items[k], name) && Encloses(Lexical(items, k), CursorBlock(items, c));
    }
    if k :| 0 <= k < |items| && Declares(items[k], name) && Encloses(Lexical(items, k), CursorBlock(items, c)) {
      assert VisibleFrom(items, c, k, name);
    }
  }

  // ----- Set operators outside parentheses -----

  /** Parenthesis depth before item `i`. */
  function Depth(items: seq<Item>, i: nat): int
    requires i <= |items|
  {
    if i == 0 then 0
    else Depth(items, i - 1) + (if items[i - 1].LParen? then 1 else if items[i - 1].RParen? then -1 else 0)
  }

  /** Every `)` has its `(`, and set operators stand outside all parentheses. */
  ghost predicate TopLevelOperators(items: seq<Item>) {
    && (forall i :: 0 <= i <= |items| ==> Depth(items, i) >= 0)
    && forall i :: 0 <= i < |items| && items[i].SetOperator? ==> Depth(items, i) == 0
  }

  ghost function Parens(items: seq<Item>, b: Block): nat {
    if b.Statement? then 0 else (if IsArm(items, b) then 0 else 1) + Parens(items, b.outer)
  }

  /** All arms lie outside all parentheses. */
  ghost predicate ArmsOutermost(items: seq<Item>, b: Block) {
    b.Inside? ==> (IsArm(items, b) ==> Parens(items, b.outer) == 0) && ArmsOutermost(items, b.outer)
  }

  lemma {:induction false} DepthIsParens(items: seq<Item>, i: nat)
    requires i <= |items| && TopLevelOperators(items)
    ensures Depth(items, i) == Parens(items, Open(items, i)) && ArmsOutermost(items, Open(items, i))
  {
    if i > 0 {
      DepthIsParens(items, i - 1);
      assert Depth(items, i) >= 0;
    }
  }

  lemma NoParenMeetsArm(items: seq<Item>, i: nat)
    requires i < |items| && TopLevelOperators(items)
    ensures items[i].RParen? ==> !IsArm(items, Open(items, i))
  {
    DepthIsParens(items, i);
    assert Depth(items, i + 1) >= 0;
    hide Open;
  }

  /** Balanced parentheses and top-level operators: no `)` ever meets an arm. */
  lemma {:induction false} TopLevelArmsStay(items: seq<Item>, n: nat)
    requires n <= |items| && TopLevelOperators(items)
    ensures ArmsStayOpen(items, n)
  {
    if n > 0 {
      TopLevelArmsStay(items, n - 1);
      NoParenMeetsArm(items, n - 1);
      SameBlock(items, n - 1);
      hide TopLevelOperators, Open, Lexical;
    }
  }

  /** Nothing is seen through the arms at the bottom of the stack. */
  lemma {:induction false} BottomHidden(items: seq<Item>, b: Block, target: Block)
    requires Parens(items, b) == 0
    ensures !Sees(items, b, target, true)
  {
    if b.Inside? { BottomHidden(items, b.outer, target); }
  }

  lemma {:induction false} SeenIsWithin(items: seq<Item>, b: Block, arm: Block, target: Block, hidden: bool)
    requires Encloses(arm, b) && IsArm(items, arm) && ArmsOutermost(items, b) && Sees(items, b, target, hidden)
    ensures Encloses(arm, target)
  {
    if b != target || hidden {
      if b == arm {
        BottomHidden(items, b.outer, target);
      } else {
        SeenIsWithin(items, b.outer, arm, target, IsArm(items, b));
      }
    }
  }

  /**
   Set-operation arms are isolated: after an operator, also inside the arm's subqueries, every
   visible name was named after that operator.
   */
  lemma EarlierArmsHidden(items: seq<Item>, q: nat, c: nat, k: nat, name: string)
    requires TopLevelOperators(items) && q < c < |items| && items[q].SetOperator?
    requires k < |items| && VisibleFrom(items, c, k, name)
    ensures q < k
  {
    TopLevelArmsStay(items, |items|);
    SameBlock(items, c);
    SameBlock(items, k);
    DepthIsParens(items, c);
    ArmStays(items, q, c);
    var arm := Inside(q, Open(items, q));
    SeenIsWithin(items, Open(items, c), arm, Open(items, k), false);
    if k <= q {
      OpenIsBlock(items, k);
      NotEnclosedEarly(items, q, Open(items, k), k);
    }
  }

  /** So a name that only earlier arms mention is not offered. */
  lemma NoTableOfEarlierArms(items: seq<Item>, q: nat, c: nat, name: string)
    requires NoWith(items) && TopLevelOperators(items) && q < c < |items| && items[q].SetOperator?
    requires forall k :: q < k < |items| ==> !Declares(items[k], name)
    ensures !HasTableNamed(Resolve(items, Some(c)).tables, name)
  {
    hide Resolve, HasTableNamed, Declares;
    TopLevelArmsStay(items, |items|);
    VisibleTables(items, c, name);
    if k :| 0 <= k < |items| && VisibleFrom(items, c, k, name) {
      EarlierArmsHidden(items, q, c, k, name);
    }
  }

  // ----- Where the frames go wrong -----

  const T := TableRef("t", None, None)
  const C := TableRef("c", None, None)

  /** `WITH c AS … SELECT … FROM c, t UNION SELECT …`: the second arm sees `t` and loses `c`. */
  lemma WithNameFirstLeaks()
    ensures var items := [Names(["c"], []), Names([], [Add(C), Add(T)]), SetOperator, Other];
            Resolve(items, Some(3)).tables == [T]
  {
    var items := [Names(["c"], []), Names([], [Add(C), Add(T)]), SetOperator, Other];
    var s0 := QueryScope([], ["c"]);
    var s1 := QueryScope([C, T], ["c"]);
    assert StateAt(items, 1) == State([Frame(0, 0, s0)], 0) by {
      assert StateAt(items, 0) == START;
      assert EMPTY_SCOPE.ctes + ["c"] == ["c"];
    }
    assert AddAll(s0, [Add(C), Add(T)]) == s1 by {
      assert [Add(C), Add(T)][1..] == [Add(T)];
      assert AddOne(s0, Add(C)) == QueryScope([C], ["c"]);
      assert AddAll(QueryScope([C], ["c"]), [Add(T)]) == AddAll(s1, []);
    }
    assert StateAt(items, 2) == State([Frame(0, 0, s1)], 0) by {
      assert s0.ctes + [] == s0.ctes;
      assert Register(StateAt(items, 1), [], [Add(C), Add(T)]) == State([Frame(0, 0, s1)], 0);
    }
    assert NonCteTables([C, T], ["c"]) == 1 by {
      assert [C, T][1..] == [T];
      assert NonCteTables([T], ["c"]) == 1;
    }
    var frames := [Frame(0, 0, s1), Frame(0, 1, EMPTY_SCOPE)];
    assert StateAt(items, 3) == State(frames, 1);
    assert StateAt(items, 4) == State(frames, 1);
    assert AddVirtuals(s1, ["c"]) == s1 by {
      assert [C, T][0].name == "c";
      assert AddVirtuals(s1, []) == s1;
    }
    assert FinalFrames(items) == frames;
    assert Walk(frames, 1, 0, EMPTY_SCOPE) == Walk(frames, 0, 1, EMPTY_SCOPE);
    assert Drop([C, T], 1) == [T];
    assert AddTables(EMPTY_SCOPE, [T]) == QueryScope([T], []);
  }

  /** `(SELECT … FROM t UNION SELECT …) …`: behind the parenthesis the closed subquery's table is listed. */
  lemma UnionInParensLeaks()
    ensures var items := [LParen, Names([], [Add(T)]), SetOperator, RParen, Other];
            Resolve(items, Some(4)).tables == [T] && Lexical(items, 4) == Statement
  {
    var items := [LParen, Names([], [Add(T)]), SetOperator, RParen, Other];
    FramesOfUnionInParens();
    var root, paren := Frame(0, 0, EMPTY_SCOPE), Frame(0, 0, QueryScope([T], []));
    var frames := [root, paren, Frame(1, 1, EMPTY_SCOPE)];
    assert FinalFrames(items) == frames by {
      assert WithCtes(root) == root && WithCtes(paren) == paren && WithCtes(frames[2]) == frames[2];
    }
    LexicalOfUnionInParens();
    hide StateAt, FinalFrames, WithCtes, Lexical;
    assert AddTables(EMPTY_SCOPE, [T]) == QueryScope([T], []);
    assert Walk(frames, 1, 0, EMPTY_SCOPE) == Walk(frames, 0, 0, QueryScope([T], []));
    assert Walk(frames, 0, 0, QueryScope([T], [])) == QueryScope([T], []);
    assert CursorFrame(items, 4) == 1;
    assert Resolve(items, Some(4)) == Walk(frames, 1, 0, EMPTY_SCOPE);
  }

  lemma LexicalOfUnionInParens()
    ensures Lexical([LParen, Names([], [Add(T)]), SetOperator, RParen, Other], 4) == Statement
  {
    var items := [LParen, Names([], [Add(T)]), SetOperator, RParen, Other];
    var paren := Inside(0, Statement);
    assert Lexical(items, 0) == Statement;
    assert Lexical(items, 1) == paren;
    assert Lexical(items, 2) == paren;
    assert Lexical(items, 3) == Inside(2, paren);
    assert Close(items, paren) == Some(Statement);
    assert Close(items, Inside(2, paren)) == Some(Statement);
  }

  lemma FramesOfUnionInParens()
    ensures var items := [LParen, Names([], [Add(T)]), SetOperator, RParen, Other];
            var root, paren := Frame(0, 0, EMPTY_SCOPE), Frame(0, 0, QueryScope([T], []));
            var end := State([root, paren, Frame(1, 1, EMPTY_SCOPE)], 1);
            StateAt(items, 4) == end && StateAt(items, 5) == end
  {
    var items := [LParen, Names([], [Add(T)]), SetOperator, RParen, Other];
    var root, paren := Frame(0, 0, EMPTY_SCOPE), Frame(0, 0, QueryScope([T], []));
    assert StateAt(items, 0) == START;
    assert StateAt(items, 1) == State([root, root], 1);
    assert AddAll(EMPTY_SCOPE, [Add(T)]) == QueryScope([T], []) by {
      assert AddAll(QueryScope([T], []), []) == QueryScope([T], []);
    }
    assert StateAt(items, 2) == State([root, paren], 1) by {
      assert EMPTY_SCOPE.ctes + [] == EMPTY_SCOPE.ctes;
      assert Register(StateAt(items, 1), [], [Add(T)]) == State([root, paren], 1);
    }
    assert NonCteTables([T], []) == 1;
    assert StateAt(items, 3) == State([root, paren, Frame(1, 1, EMPTY_SCOPE)], 2);
    assert StateAt(items, 4) == State([root, paren, Frame(1, 1, EMPTY_SCOPE)], 1);
  }
}
