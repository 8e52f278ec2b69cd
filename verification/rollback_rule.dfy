/**
 * Locating the rollback method (`down`) and the rule it must satisfy: its
 * body is a single top-level `throw`, whatever is thrown.
 */
module RollbackRule {
  import opened Wrappers
  import opened SyntaxTree

  /** The name of the rollback hook. */
  const RollbackMethodName: string := "down"

  /** Why one migration file failed. */
  datatype FailReason =
    | ParseFailed(message: string)
    | MissingRollbackMethod
    | EmptyRollbackBody
    | RollbackBodyNotSoleThrow

  /** The verdict on one migration file. */
  datatype Verdict = Pass | Fail(reason: FailReason)

  /** The body an irreversible migration's rollback must have: exactly one statement, a `throw`. */
  predicate IsSoleThrow(stmts: seq<Node>)
  {
    |stmts| == 1 && stmts[0].kind == Throw
  }

  /**
   * `findRollbackMigrationMethod`: the first method named exactly `down`,
   * or nothing when no method has that name.
   */
  function FindRollbackMigrationMethod(methods: seq<MethodDecl>): (r: Option<MethodDecl>)
    ensures r.None? <==> forall k :: 0 <= k < |methods| ==> methods[k].name != RollbackMethodName
    ensures r.Some? ==> r.value in methods && r.value.name == RollbackMethodName
    ensures forall k :: 0 <= k < |methods| && methods[k].name == RollbackMethodName
                        && (forall j :: 0 <= j < k ==> methods[j].name != RollbackMethodName)
                        ==> r == Some(methods[k])
    decreases |methods|
  {
    if |methods| == 0 then None
    else if methods[0].name == RollbackMethodName then Some(methods[0])
    else
      var r := FindRollbackMigrationMethod(methods[1..]);
      assert forall k :: 1 <= k < |methods| ==> methods[k] == methods[1..][k - 1];
      r
  }

  /** Once a `down` method has been found, methods after it are never looked at. */
  lemma {:induction false} LaterRollbackMethodsIgnored(first: seq<MethodDecl>, later: seq<MethodDecl>)
    requires FindRollbackMigrationMethod(first).Some?
    ensures FindRollbackMigrationMethod(first + later) == FindRollbackMigrationMethod(first)
    decreases |first|
  {
    if first[0].name != RollbackMethodName {
      assert (first + later)[1..] == first[1..] + later;
      LaterRollbackMethodsIgnored(first[1..], later);
    }
  }

  /**
   * The rule of `analyzeMigrationFileCode`, first failing branch wins:
   * missing method, then empty body, then anything but a sole `throw`.
   */
  function CheckRollbackMethod(rollback: Option<MethodDecl>): (v: Verdict)
    ensures v == Pass <==> rollback.Some? && IsSoleThrow(rollback.value.stmts)
    ensures v == Fail(MissingRollbackMethod) <==> rollback.None?
    ensures v == Fail(EmptyRollbackBody) <==> rollback.Some? && |rollback.value.stmts| == 0
    ensures v == Fail(RollbackBodyNotSoleThrow) <==>
              rollback.Some? && |rollback.value.stmts| > 0 && !IsSoleThrow(rollback.value.stmts)
    ensures !v.Fail? || !v.reason.ParseFailed?
  {
    match rollback
    case None => Fail(MissingRollbackMethod)
    case Some(m) =>
      var statementsCount := |m.stmts|;
      if statementsCount == 0 then Fail(EmptyRollbackBody)
      else if statementsCount > 1 || m.stmts[0].kind != Throw then Fail(RollbackBodyNotSoleThrow)
      else Pass
  }

  /** `analyzeMigrationFileCode` with `parseFileCode`'s error conversion: one verdict per file. */
  function AnalyzeMigrationFileCode(parsed: ParseResult): (v: Verdict)
    ensures parsed.ParseError? ==> v == Fail(ParseFailed(parsed.message))
    ensures parsed.Parsed? ==> !v.Fail? || !v.reason.ParseFailed?
  {
    match parsed
    case ParseError(message) => Fail(ParseFailed(message))
    case Parsed(stmts) =>
      var methods := FindClassMethods(stmts);
      CheckRollbackMethod(FindRollbackMigrationMethod(methods))
  }

  /** A parsed file lacks its rollback method exactly when no node anywhere in its tree declares `down`. */
  lemma MissingRollbackIffNoDownAnywhere(stmts: seq<Node>)
    ensures AnalyzeMigrationFileCode(Parsed(stmts)) == Fail(MissingRollbackMethod)
            <==> forall n :: n in PreOrder(stmts) ==> n.kind != ClassMethod(RollbackMethodName)
  {
    var methods := FindClassMethods(stmts);
    var m := FindRollbackMigrationMethod(methods);
    if m.Some? {
      assert Node(ClassMethod(RollbackMethodName), m.value.stmts) in PreOrder(stmts);
    }
  }

  /** A parsed file passes exactly when the first `down` in pre-order has a sole `throw` as body. */
  lemma PassIffFirstDownIsSoleThrow(stmts: seq<Node>)
    ensures AnalyzeMigrationFileCode(Parsed(stmts)) == Pass
            <==> exists k :: 0 <= k < |FindClassMethods(stmts)|
                   && FindClassMethods(stmts)[k].name == RollbackMethodName
                   && (forall j :: 0 <= j < k ==> FindClassMethods(stmts)[j].name != RollbackMethodName)
                   && IsSoleThrow(FindClassMethods(stmts)[k].stmts)
  {
    var methods := FindClassMethods(stmts);
    var m := FindRollbackMigrationMethod(methods);
    if m.Some? {
      var k := FirstRollbackIndex(methods);
      assert m == Some(methods[k]);
    }
  }

  /** Position of the first `down` in a list of methods that has one. */
  function FirstRollbackIndex(methods: seq<MethodDecl>): (k: nat)
    requires exists i :: 0 <= i < |methods| && methods[i].name == RollbackMethodName
    ensures k < |methods| && methods[k].name == RollbackMethodName
    ensures forall j :: 0 <= j < k ==> methods[j].name != RollbackMethodName
    decreases |methods|
  {
    if methods[0].name == RollbackMethodName then 0
    else
      var i :| 0 <= i < |methods| && methods[i].name == RollbackMethodName;
      assert methods[1..][i - 1] == methods[i];
      1 + FirstRollbackIndex(methods[1..])
  }

  /**
   * When the leading statements already declare a `down` method, whatever
   * follows them (another class, a second `down`) cannot change the verdict.
   */
  lemma FirstDeclaredRollbackDecides(leading: seq<Node>, following: seq<Node>)
    requires FindRollbackMigrationMethod(FindClassMethods(leading)).Some?
    ensures AnalyzeMigrationFileCode(Parsed(leading + following))
            == AnalyzeMigrationFileCode(Parsed(leading))
  {
    FindClassMethodsAppend(leading, following);
    LaterRollbackMethodsIgnored(FindClassMethods(leading), FindClassMethods(following));
  }

  /** Any single `throw` passes, whatever expression it throws. */
  lemma SoleThrowPassesWhateverThePayload(payload: seq<Node>)
    ensures CheckRollbackMethod(Some(MethodDecl(RollbackMethodName, [Node(Throw, payload)]))) == Pass
  {
  }

  /** Two or more statements fail, even when the first one is a `throw`. */
  lemma ThrowFollowedByAnythingFails(payload: seq<Node>, more: seq<Node>)
    requires |more| > 0
    ensures CheckRollbackMethod(Some(MethodDecl(RollbackMethodName, [Node(Throw, payload)] + more)))
            == Fail(RollbackBodyNotSoleThrow)
  {
  }

  /** The thrown expression of the fixture: `new \Exception('...')`, opaque to the rule. */
  const FixtureException: Node := Node(Other, [Node(Other, [])])

  /** The fixture's `down` method: its only statement throws the exception. */
  const FixtureDown: Node := Node(ClassMethod("down"), [Node(Throw, [FixtureException])])

  /** The fixture's class: an `up` with an empty body, then `down`. */
  const FixtureClass: Node := Node(ClassLike("SuccessMigration"), [Node(ClassMethod("up"), []), FixtureDown])

  lemma FixtureVisitOrder()
    ensures PreOrder([FixtureClass])
            == [FixtureClass, Node(ClassMethod("up"), []), FixtureDown] + PreOrder([Node(Throw, [FixtureException])])
  {
    var up := Node(ClassMethod("up"), []);
    var thr := Node(Throw, [FixtureException]);
    assert PreOrder([FixtureClass]) == [FixtureClass] + PreOrder([up, FixtureDown]) + PreOrder([]);
    assert [up, FixtureDown][1..] == [FixtureDown];
    assert PreOrder([up, FixtureDown]) == [up] + PreOrder([]) + PreOrder([FixtureDown]);
    assert PreOrder([FixtureDown]) == [FixtureDown] + PreOrder([thr]) + PreOrder([]);
  }

  lemma FixtureMethods()
    ensures 2 <= |FindClassMethods([FixtureClass])|
    ensures FindClassMethods([FixtureClass])[..2]
            == [MethodDecl("up", []), MethodDecl("down", [Node(Throw, [FixtureException])])]
  {
    FixtureVisitOrder();
    var visited := PreOrder([FixtureClass]);
    assert MethodsAmong(visited) == MethodsAmong(visited[1..]);
    assert MethodsAmong(visited[1..]) == [MethodDecl("up", [])] + MethodsAmong(visited[2..]);
    assert MethodsAmong(visited[2..]) == [MethodDecl("down", [Node(Throw, [FixtureException])])] + MethodsAmong(visited[3..]);
  }

  /**
   * The passing fixture migration: a class with an empty `up` and a `down`
   * whose only statement throws a new exception.
   */
  lemma SuccessMigrationFixturePasses()
    ensures AnalyzeMigrationFileCode(Parsed([FixtureClass])) == Pass
  {
    FixtureMethods();
    var methods := FindClassMethods([FixtureClass]);
    assert methods == methods[..2] + methods[2..];
    LaterRollbackMethodsIgnored(methods[..2], methods[2..]);
  }
}
