/**
 * The parser's output as the validator sees it. The parser itself is not
 * modelled: a parse either yields a list of top-level statements or fails
 * with a message. Each node is a tagged kind with its child statements, and
 * the search for method declarations is a generic pre-order visit.
 */
module SyntaxTree {

  /** Node kinds the validator distinguishes; every other statement or expression is `Other`. */
  datatype Kind =
    | ClassLike(className: string)
    | ClassMethod(methodName: string)
    | Throw
    | Other

  /**
   * A syntax node. For a class its children are its members; for a method,
   * its body statements; for a `throw`, the thrown expression (its payload).
   */
  datatype Node = Node(kind: Kind, children: seq<Node>)

  /** A method declaration as the rule checker reads it: a name and its body statements. */
  datatype MethodDecl = MethodDecl(name: string, stmts: seq<Node>)

  /** What the parser returns for one file's text. */
  datatype ParseResult = Parsed(stmts: seq<Node>) | ParseError(message: string)

  /**
   * Every node of the forest, each parent before its children and siblings
   * in source order (the traversal order of PHP-Parser's node finder).
   */
  function PreOrder(nodes: seq<Node>): (r: seq<Node>)
    ensures forall i :: 0 <= i < |nodes| ==> nodes[i] in r
    decreases nodes
  {
    if |nodes| == 0 then []
    else [nodes[0]] + PreOrder(nodes[0].children) + PreOrder(nodes[1..])
  }

  /** Visiting a concatenation visits the first part completely before the second. */
  lemma {:induction false} PreOrderAppend(a: seq<Node>, b: seq<Node>)
    ensures PreOrder(a + b) == PreOrder(a) + PreOrder(b)
    decreases a
  {
    if |a| == 0 {
      assert a + b == b;
    } else {
      assert (a + b)[0] == a[0];
      assert (a + b)[1..] == a[1..] + b;
      PreOrderAppend(a[1..], b);
      assert PreOrder(a + b)
          == [a[0]] + PreOrder(a[0].children) + (PreOrder(a[1..]) + PreOrder(b));
    }
  }

  /** The visit reaches nested scopes: the children of every visited node are visited too. */
  lemma {:induction false} PreOrderReachesChildren(nodes: seq<Node>, n: Node)
    requires n in PreOrder(nodes)
    ensures forall c :: c in n.children ==> c in PreOrder(nodes)
    decreases nodes
  {
    var head := [nodes[0]];
    var inner := PreOrder(nodes[0].children);
    var rest := PreOrder(nodes[1..]);
    assert PreOrder(nodes) == head + inner + rest;
    if n == nodes[0] {
      forall c | c in n.children
        ensures c in PreOrder(nodes)
      {
        assert c in inner;
      }
    } else if n in inner {
      PreOrderReachesChildren(nodes[0].children, n);
    } else {
      assert n in rest;
      PreOrderReachesChildren(nodes[1..], n);
    }
  }

  /** The method declarations among visited nodes, in visiting order. */
  function MethodsAmong(visited: seq<Node>): (ms: seq<MethodDecl>)
    ensures |ms| <= |visited|
    ensures forall m :: m in ms <==> Node(ClassMethod(m.name), m.stmts) in visited
    decreases |visited|
  {
    if |visited| == 0 then []
    else
      var n := visited[0];
      var here := if n.kind.ClassMethod? then [MethodDecl(n.kind.methodName, n.children)] else [];
      assert visited == [n] + visited[1..];
      here + MethodsAmong(visited[1..])
  }

  /** `findClassMethods`: every method declaration in the tree, in pre-order. */
  function FindClassMethods(stmts: seq<Node>): (ms: seq<MethodDecl>)
    ensures forall m :: m in ms <==> Node(ClassMethod(m.name), m.stmts) in PreOrder(stmts)
  {
    MethodsAmong(PreOrder(stmts))
  }

  lemma {:induction false} MethodsAmongAppend(a: seq<Node>, b: seq<Node>)
    ensures MethodsAmong(a + b) == MethodsAmong(a) + MethodsAmong(b)
    decreases |a|
  {
    if |a| == 0 {
      assert a + b == b;
    } else {
      assert (a + b)[0] == a[0];
      assert (a + b)[1..] == a[1..] + b;
      MethodsAmongAppend(a[1..], b);
    }
  }

  /**
   * Methods are collected statement by statement in source order: those of
   * earlier top-level statements all come before those of later ones.
   */
  lemma FindClassMethodsAppend(a: seq<Node>, b: seq<Node>)
    ensures FindClassMethods(a + b) == FindClassMethods(a) + FindClassMethods(b)
  {
    PreOrderAppend(a, b);
    MethodsAmongAppend(PreOrder(a), PreOrder(b));
  }
}
