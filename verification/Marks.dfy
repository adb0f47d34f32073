/** The elision marker: a walk over a program that drops the checks a proof has made needless. */
module Marks {
  import opened Wrappers

  type Key = (nat, nat)

  /** The proven call sites, annotated lets and function returns, by source span. */
  datatype ElisionSet = ElisionSet(calls: set<Key>, lets: set<Key>, fnRets: set<Key>)

  datatype Counts = Counts(calls: nat, lets: nat, fnRets: nat)
  {
    function Total(): nat {
      calls + lets + fnRets
    }
  }

  // ----- programs: the parts the walk does not visit are kept as text -----

  datatype Expr = Expr(span: Key, kind: Kind)

  /** Forms with the same visited parts share a constructor: `Wrap` is a unary or postfix operator, a
      member access, a parenthesis, an await or an arrow with an expression body; `Pair` is a binary
      operator, an index or an assignment; `List` is an array, object, map or template literal. */
  datatype Kind =
    | Call(callee: Expr, args: seq<Item>, elideArgs: bool)
    | Wrap(form: string, inner: Expr)
    | Pair(form: string, lhs: Expr, rhs: Expr)
    | Ternary(cond: Expr, yes: Expr, no: Expr)
    | List(form: string, items: seq<Item>)
    | Match(subject: Expr, arms: seq<Item>)
    | Yield(operand: Option<Expr>)
    | Range(start: Expr, end: Expr, step: Option<Expr>)
    | ArrowBlock(head: string, body: seq<Stmt>)
    | Leaf(text: string)

  /** A call argument, array element, object or map entry, template part or match arm. */
  datatype Item =
    | Text(text: string)
    | One(form: string, e: Expr)
    | Entry(key: Expr, value: Expr)
    | Arm(pattern: string, guard: Option<Expr>, result: Expr)

  /** `Simple` is an expression statement, a defer or a destructuring let; `Loop` is a while or a
      for-of. */
  datatype Stmt =
    | Let(head: string, ty: Option<string>, init: Option<Expr>)
    | Fn(nameSpan: Key, head: string, ret: Option<string>, body: seq<Stmt>)
    | Simple(head: string, e: Expr)
    | Block(body: seq<Stmt>)
    | If(cond: Expr, yes: seq<Stmt>, no: Branch)
    | Loop(head: string, e: Expr, body: seq<Stmt>)
    | ForRange(head: string, start: Expr, end: Expr, step: Option<Expr>, body: seq<Stmt>)
    | Return(result: Option<Expr>)
    | Class(head: string, methods: seq<Method>)
    | Export(inner: Stmt)
    | Other(text: string)

  datatype Branch = NoBranch | Branch(body: seq<Stmt>)

  datatype Method = Method(head: string, body: seq<Stmt>)

  // ----- the walk -----

  function MarkExpr(s: ElisionSet, e: Expr): Expr {
    e.(kind := match e.kind
      case Call(c, args, elide) => Call(MarkExpr(s, c), MarkItems(s, args), elide || e.span in s.calls)
      case Pair(f, l, r) => Pair(f, MarkExpr(s, l), MarkExpr(s, r))
      case ArrowBlock(h, b) => ArrowBlock(h, MarkStmts(s, b))
      case List(f, items) => List(f, MarkItems(s, items))
      case Wrap(f, x) => Wrap(f, MarkExpr(s, x))
      case Ternary(c, y, n) => Ternary(MarkExpr(s, c), MarkExpr(s, y), MarkExpr(s, n))
      case Match(x, arms) => Match(MarkExpr(s, x), MarkItems(s, arms))
      case Yield(x) => Yield(MarkOption(s, x))
      case Range(a, b, st) => Range(MarkExpr(s, a), MarkExpr(s, b), MarkOption(s, st))
      case Leaf(t) => Leaf(t))
  }

  function MarkOption(s: ElisionSet, x: Option<Expr>): Option<Expr> {
    match x
    case None => None
    case Some(e) => Some(MarkExpr(s, e))
  }

  function MarkItem(s: ElisionSet, i: Item): Item {
    match i
    case Text(t) => Text(t)
    case One(f, e) => One(f, MarkExpr(s, e))
    case Entry(k, v) => Entry(MarkExpr(s, k), MarkExpr(s, v))
    case Arm(p, g, r) => Arm(p, MarkOption(s, g), MarkExpr(s, r))
  }

  function MarkItems(s: ElisionSet, items: seq<Item>): seq<Item> {
    if items == [] then [] else [MarkItem(s, items[0])] + MarkItems(s, items[1..])
  }

  function MarkStmt(s: ElisionSet, stmt: Stmt): Stmt {
    match stmt
    case Let(h, ty, init) =>
      Let(h, if init.Some? && init.value.span in s.lets then None else ty, MarkOption(s, init))
    case Fn(n, h, ret, b) => Fn(n, h, if n in s.fnRets then None else ret, MarkStmts(s, b))
    case Simple(h, e) => Simple(h, MarkExpr(s, e))
    case Block(b) => Block(MarkStmts(s, b))
    case If(c, y, n) => If(MarkExpr(s, c), MarkStmts(s, y), MarkBranch(s, n))
    case ForRange(h, a, z, st, b) => ForRange(h, MarkExpr(s, a), MarkExpr(s, z), MarkOption(s, st), MarkStmts(s, b))
    case Loop(h, i, b) => Loop(h, MarkExpr(s, i), MarkStmts(s, b))
    case Return(r) => Return(MarkOption(s, r))
    case Class(h, ms) => Class(h, MarkMethods(s, ms))
    case Export(x) => Export(MarkStmt(s, x))
    case Other(t) => Other(t)
  }

  function MarkBranch(s: ElisionSet, b: Branch): Branch {
    match b
    case NoBranch => NoBranch
    case Branch(body) => Branch(MarkStmts(s, body))
  }

  function MarkStmts(s: ElisionSet, ss: seq<Stmt>): seq<Stmt> {
    if ss == [] then [] else [MarkStmt(s, ss[0])] + MarkStmts(s, ss[1..])
  }

  function MarkMethods(s: ElisionSet, ms: seq<Method>): seq<Method> {
    if ms == [] then [] else [ms[0].(body := MarkStmts(s, ms[0].body))] + MarkMethods(s, ms[1..])
  }

  // ----- the sites the walk visits, in order -----

  datatype Site =
    | CallSite(key: Key, elided: bool)
    | LetSite(key: Key, ty: Option<string>)
    | FnSite(key: Key, ret: Option<string>)

  function SitesExpr(e: Expr): seq<Site> {
    match e.kind
    case Call(c, args, elide) => [CallSite(e.span, elide)] + SitesExpr(c) + SitesItems(args)
    case Pair(_, l, r) => SitesExpr(l) + SitesExpr(r)
    case ArrowBlock(_, b) => SitesStmts(b)
    case List(_, items) => SitesItems(items)
    case Wrap(_, x) => SitesExpr(x)
    case Ternary(c, y, n) => SitesExpr(c) + SitesExpr(y) + SitesExpr(n)
    case Match(x, arms) => SitesExpr(x) + SitesItems(arms)
    case Yield(x) => SitesOption(x)
    case Range(a, b, st) => SitesExpr(a) + SitesExpr(b) + SitesOption(st)
    case Leaf(_) => []
  }

  function SitesOption(x: Option<Expr>): seq<Site> {
    match x
    case None => []
    case Some(e) => SitesExpr(e)
  }

  function SitesItem(i: Item): seq<Site> {
    match i
    case Text(_) => []
    case One(_, e) => SitesExpr(e)
    case Entry(k, v) => SitesExpr(k) + SitesExpr(v)
    case Arm(_, g, r) => SitesOption(g) + SitesExpr(r)
  }

  function SitesItems(items: seq<Item>): seq<Site> {
    if items == [] then [] else SitesItem(items[0]) + SitesItems(items[1..])
  }

  function SitesStmt(stmt: Stmt): seq<Site> {
    match stmt
    case Let(_, ty, init) => (if init.Some? then [LetSite(init.value.span, ty)] else []) + SitesOption(init)
    case Fn(n, _, ret, b) => [FnSite(n, ret)] + SitesStmts(b)
    case Simple(_, e) => SitesExpr(e)
    case Block(b) => SitesStmts(b)
    case If(c, y, n) => SitesExpr(c) + SitesStmts(y) + SitesBranch(n)
    case ForRange(_, a, z, st, b) => SitesExpr(a) + SitesExpr(z) + SitesOption(st) + SitesStmts(b)
    case Loop(_, i, b) => SitesExpr(i) + SitesStmts(b)
    case Return(r) => SitesOption(r)
    case Class(_, ms) => SitesMethods(ms)
    case Export(x) => SitesStmt(x)
    case Other(_) => []
  }

  function SitesBranch(b: Branch): seq<Site> {
    match b
    case NoBranch => []
    case Branch(body) => SitesStmts(body)
  }

  function SitesStmts(ss: seq<Stmt>): seq<Site> {
    if ss == [] then [] else SitesStmt(ss[0]) + SitesStmts(ss[1..])
  }

  function SitesMethods(ms: seq<Method>): seq<Site> {
    if ms == [] then [] else SitesStmts(ms[0].body) + SitesMethods(ms[1..])
  }

  /** What marking makes of one site. */
  function Marked(s: ElisionSet, x: Site): Site {
    match x
    case CallSite(k, elided) => CallSite(k, elided || k in s.calls)
    case LetSite(k, ty) => LetSite(k, if k in s.lets then None else ty)
    case FnSite(k, ret) => FnSite(k, if k in s.fnRets then None else ret)
  }

  function MarkedAll(s: ElisionSet, xs: seq<Site>): seq<Site> {
    seq(|xs|, i requires 0 <= i < |xs| => Marked(s, xs[i]))
  }

  function Union(s: ElisionSet, t: ElisionSet): ElisionSet {
    ElisionSet(s.calls + t.calls, s.lets + t.lets, s.fnRets + t.fnRets)
  }

  lemma MarkedJoins(s: ElisionSet, xs: seq<Site>, ys: seq<Site>)
    ensures MarkedAll(s, xs + ys) == MarkedAll(s, xs) + MarkedAll(s, ys)
  {
  }

  lemma MarkedJoinsThree(s: ElisionSet, xs: seq<Site>, ys: seq<Site>, zs: seq<Site>)
    ensures MarkedAll(s, xs + ys + zs) == MarkedAll(s, xs) + MarkedAll(s, ys) + MarkedAll(s, zs)
  {
  }

  // ----- marking changes the visited sites, each as it should, and keeps their order -----

  lemma {:induction false} SitesMarkedExpr(s: ElisionSet, e: Expr)
    ensures SitesExpr(MarkExpr(s, e)) == MarkedAll(s, SitesExpr(e))
  {
    match e.kind {
      case Call(c, args, elide) => SitesMarkedExpr(s, c); SitesMarkedItems(s, args); SitesMarkedCall(s, e);
      case Pair(_, l, r) => SitesMarkedExpr(s, l); SitesMarkedExpr(s, r); MarkedJoins(s, SitesExpr(l), SitesExpr(r));
      case ArrowBlock(_, b) => SitesMarkedStmts(s, b);
      case List(_, items) => SitesMarkedItems(s, items);
      case Wrap(_, x) => SitesMarkedExpr(s, x);
      case Ternary(c, y, n) =>
        SitesMarkedExpr(s, c); SitesMarkedExpr(s, y); SitesMarkedExpr(s, n);
        MarkedJoinsThree(s, SitesExpr(c), SitesExpr(y), SitesExpr(n));
      case Match(x, arms) => SitesMarkedExpr(s, x); SitesMarkedItems(s, arms); MarkedJoins(s, SitesExpr(x), SitesItems(arms));
      case Yield(x) => SitesMarkedOption(s, x);
      case Range(a, b, st) =>
        SitesMarkedExpr(s, a); SitesMarkedExpr(s, b); SitesMarkedOption(s, st);
        MarkedJoinsThree(s, SitesExpr(a), SitesExpr(b), SitesOption(st));
      case Leaf(_) =>
    }
  }

  lemma SitesMarkedCall(s: ElisionSet, e: Expr)
    requires e.kind.Call? && SitesExpr(MarkExpr(s, e.kind.callee)) == MarkedAll(s, SitesExpr(e.kind.callee))
    requires SitesItems(MarkItems(s, e.kind.args)) == MarkedAll(s, SitesItems(e.kind.args))
    ensures SitesExpr(MarkExpr(s, e)) == MarkedAll(s, SitesExpr(e))
  {
    MarkedJoinsThree(s, [CallSite(e.span, e.kind.elideArgs)], SitesExpr(e.kind.callee), SitesItems(e.kind.args));
  }

  lemma {:induction false} SitesMarkedOption(s: ElisionSet, x: Option<Expr>)
    ensures SitesOption(MarkOption(s, x)) == MarkedAll(s, SitesOption(x))
  {
    if x.Some? {
      SitesMarkedExpr(s, x.value);
    }
  }

  lemma {:induction false} SitesMarkedItem(s: ElisionSet, i: Item)
    ensures SitesItem(MarkItem(s, i)) == MarkedAll(s, SitesItem(i))
  {
    match i {
      case Text(_) =>
      case One(_, e) => SitesMarkedExpr(s, e);
      case Entry(k, v) => SitesMarkedExpr(s, k); SitesMarkedExpr(s, v); MarkedJoins(s, SitesExpr(k), SitesExpr(v));
      case Arm(_, g, r) => SitesMarkedOption(s, g); SitesMarkedExpr(s, r); MarkedJoins(s, SitesOption(g), SitesExpr(r));
    }
  }

  lemma {:induction false} SitesMarkedItems(s: ElisionSet, items: seq<Item>)
    ensures SitesItems(MarkItems(s, items)) == MarkedAll(s, SitesItems(items))
  {
    if items != [] {
      SitesMarkedItem(s, items[0]);
      SitesMarkedItems(s, items[1..]);
      MarkedJoins(s, SitesItem(items[0]), SitesItems(items[1..]));
      assert MarkItems(s, items)[1..] == MarkItems(s, items[1..]);
    }
  }

  lemma {:induction false} SitesMarkedStmt(s: ElisionSet, stmt: Stmt)
    ensures SitesStmt(MarkStmt(s, stmt)) == MarkedAll(s, SitesStmt(stmt))
  {
    match stmt {
      case Let(_, ty, init) =>
        SitesMarkedOption(s, init);
        MarkedJoins(s, (if init.Some? then [LetSite(init.value.span, ty)] else []), SitesOption(init));
      case Fn(n, _, ret, b) => SitesMarkedStmts(s, b); MarkedJoins(s, [FnSite(n, ret)], SitesStmts(b));
      case Simple(_, e) => SitesMarkedExpr(s, e);
      case Block(b) => SitesMarkedStmts(s, b);
      case If(c, y, n) =>
        SitesMarkedExpr(s, c); SitesMarkedStmts(s, y); SitesMarkedBranch(s, n);
        MarkedJoinsThree(s, SitesExpr(c), SitesStmts(y), SitesBranch(n));
      case ForRange(_, a, z, st, b) =>
        SitesMarkedExpr(s, a); SitesMarkedExpr(s, z); SitesMarkedOption(s, st); SitesMarkedStmts(s, b);
        MarkedJoins(s, SitesExpr(a), SitesExpr(z));
        MarkedJoins(s, SitesExpr(a) + SitesExpr(z), SitesOption(st));
        MarkedJoins(s, SitesExpr(a) + SitesExpr(z) + SitesOption(st), SitesStmts(b));
      case Loop(_, i, b) => SitesMarkedExpr(s, i); SitesMarkedStmts(s, b); MarkedJoins(s, SitesExpr(i), SitesStmts(b));
      case Return(r) => SitesMarkedOption(s, r);
      case Class(_, ms) => SitesMarkedMethods(s, ms);
      case Export(x) => SitesMarkedStmt(s, x);
      case Other(_) =>
    }
  }

  lemma {:induction false} SitesMarkedBranch(s: ElisionSet, b: Branch)
    ensures SitesBranch(MarkBranch(s, b)) == MarkedAll(s, SitesBranch(b))
  {
    if b.Branch? {
      SitesMarkedStmts(s, b.body);
    }
  }

  lemma {:induction false} SitesMarkedStmts(s: ElisionSet, ss: seq<Stmt>)
    ensures SitesStmts(MarkStmts(s, ss)) == MarkedAll(s, SitesStmts(ss))
  {
    if ss != [] {
      SitesMarkedStmt(s, ss[0]);
      SitesMarkedStmts(s, ss[1..]);
      MarkedJoins(s, SitesStmt(ss[0]), SitesStmts(ss[1..]));
      assert MarkStmts(s, ss)[1..] == MarkStmts(s, ss[1..]);
    }
  }

  lemma {:induction false} SitesMarkedMethods(s: ElisionSet, ms: seq<Method>)
    ensures SitesMethods(MarkMethods(s, ms)) == MarkedAll(s, SitesMethods(ms))
  {
    if ms != [] {
      SitesMarkedStmts(s, ms[0].body);
      SitesMarkedMethods(s, ms[1..]);
      MarkedJoins(s, SitesStmts(ms[0].body), SitesMethods(ms[1..]));
      assert MarkMethods(s, ms)[1..] == MarkMethods(s, ms[1..]);
    }
  }

  // ----- a program without its marks -----

  /** The program with every visited flag cleared and every visited annotation dropped; the rest stays. */
  function EraseExpr(e: Expr): Expr {
    e.(kind := match e.kind
      case Call(c, args, _) => Call(EraseExpr(c), EraseItems(args), false)
      case Wrap(f, x) => Wrap(f, EraseExpr(x))
      case Pair(f, l, r) => Pair(f, EraseExpr(l), EraseExpr(r))
      case Ternary(c, y, n) => Ternary(EraseExpr(c), EraseExpr(y), EraseExpr(n))
      case List(f, items) => List(f, EraseItems(items))
      case Match(x, arms) => Match(EraseExpr(x), EraseItems(arms))
      case Yield(x) => Yield(EraseOption(x))
      case Range(a, b, st) => Range(EraseExpr(a), EraseExpr(b), EraseOption(st))
      case ArrowBlock(h, b) => ArrowBlock(h, EraseStmts(b))
      case Leaf(t) => Leaf(t))
  }

  function EraseOption(x: Option<Expr>): Option<Expr> {
    match x
    case None => None
    case Some(e) => Some(EraseExpr(e))
  }

  function EraseItem(i: Item): Item {
    match i
    case Text(t) => Text(t)
    case One(f, e) => One(f, EraseExpr(e))
    case Entry(k, v) => Entry(EraseExpr(k), EraseExpr(v))
    case Arm(p, g, r) => Arm(p, EraseOption(g), EraseExpr(r))
  }

  function EraseItems(items: seq<Item>): seq<Item> {
    if items == [] then [] else [EraseItem(items[0])] + EraseItems(items[1..])
  }

  function EraseStmt(stmt: Stmt): Stmt {
    match stmt
    case Let(h, ty, init) => Let(h, if init.Some? then None else ty, EraseOption(init))
    case Fn(n, h, _, b) => Fn(n, h, None, EraseStmts(b))
    case Simple(h, e) => Simple(h, EraseExpr(e))
    case Block(b) => Block(EraseStmts(b))
    case If(c, y, n) => If(EraseExpr(c), EraseStmts(y), EraseBranch(n))
    case Loop(h, i, b) => Loop(h, EraseExpr(i), EraseStmts(b))
    case ForRange(h, a, z, st, b) => ForRange(h, EraseExpr(a), EraseExpr(z), EraseOption(st), EraseStmts(b))
    case Return(r) => Return(EraseOption(r))
    case Class(h, ms) => Class(h, EraseMethods(ms))
    case Export(x) => Export(EraseStmt(x))
    case Other(t) => Other(t)
  }

  function EraseBranch(b: Branch): Branch {
    match b
    case NoBranch => NoBranch
    case Branch(body) => Branch(EraseStmts(body))
  }

  function EraseStmts(ss: seq<Stmt>): seq<Stmt> {
    if ss == [] then [] else [EraseStmt(ss[0])] + EraseStmts(ss[1..])
  }

  function EraseMethods(ms: seq<Method>): seq<Method> {
    if ms == [] then [] else [ms[0].(body := EraseStmts(ms[0].body))] + EraseMethods(ms[1..])
  }

  // ----- marking changes the visited sites only -----

  lemma {:induction false} OnlySitesExpr(s: ElisionSet, e: Expr)
    ensures EraseExpr(MarkExpr(s, e)) == EraseExpr(e)
  {
    match e.kind {
      case Call(c, args, elide) => OnlySitesExpr(s, c); OnlySitesItems(s, args);
      case Wrap(_, x) => OnlySitesExpr(s, x);
      case Pair(_, l, r) => OnlySitesExpr(s, l); OnlySitesExpr(s, r);
      case Ternary(c, y, n) => OnlySitesExpr(s, c); OnlySitesExpr(s, y); OnlySitesExpr(s, n);
      case List(_, items) => OnlySitesItems(s, items);
      case Match(x, arms) => OnlySitesExpr(s, x); OnlySitesItems(s, arms);
      case Yield(x) => OnlySitesOption(s, x);
      case Range(a, b, st) => OnlySitesExpr(s, a); OnlySitesExpr(s, b); OnlySitesOption(s, st);
      case ArrowBlock(_, b) => OnlySitesStmts(s, b);
      case Leaf(_) =>
    }
  }

  lemma {:induction false} OnlySitesOption(s: ElisionSet, x: Option<Expr>)
    ensures EraseOption(MarkOption(s, x)) == EraseOption(x)
  {
    if x.Some? {
      OnlySitesExpr(s, x.value);
    }
  }

  lemma {:induction false} OnlySitesItem(s: ElisionSet, i: Item)
    ensures EraseItem(MarkItem(s, i)) == EraseItem(i)
  {
    match i {
      case Text(_) =>
      case One(_, e) => OnlySitesExpr(s, e);
      case Entry(k, v) => OnlySitesExpr(s, k); OnlySitesExpr(s, v);
      case Arm(_, g, r) => OnlySitesOption(s, g); OnlySitesExpr(s, r);
    }
  }

  lemma {:induction false} OnlySitesItems(s: ElisionSet, items: seq<Item>)
    ensures EraseItems(MarkItems(s, items)) == EraseItems(items)
  {
    if items != [] {
      OnlySitesItem(s, items[0]);
      OnlySitesItems(s, items[1..]);
      assert MarkItems(s, items)[1..] == MarkItems(s, items[1..]);
    }
  }

  lemma {:induction false} OnlySitesStmt(s: ElisionSet, stmt: Stmt)
    ensures EraseStmt(MarkStmt(s, stmt)) == EraseStmt(stmt)
  {
    match stmt {
      case Let(_, _, init) => OnlySitesOption(s, init);
      case Fn(_, _, _, b) => OnlySitesStmts(s, b);
      case Simple(_, e) => OnlySitesExpr(s, e);
      case Block(b) => OnlySitesStmts(s, b);
      case If(c, y, n) => OnlySitesExpr(s, c); OnlySitesStmts(s, y); OnlySitesBranch(s, n);
      case Loop(_, i, b) => OnlySitesExpr(s, i); OnlySitesStmts(s, b);
      case ForRange(_, a, z, st, b) =>
        OnlySitesExpr(s, a);
        OnlySitesExpr(s, z);
        OnlySitesOption(s, st);
        OnlySitesStmts(s, b);
      case Return(r) => OnlySitesOption(s, r);
      case Class(_, ms) => OnlySitesMethods(s, ms);
      case Export(x) => OnlySitesStmt(s, x);
      case Other(_) =>
    }
  }

  lemma {:induction false} OnlySitesBranch(s: ElisionSet, b: Branch)
    ensures EraseBranch(MarkBranch(s, b)) == EraseBranch(b)
  {
    if b.Branch? {
      OnlySitesStmts(s, b.body);
    }
  }

  lemma {:induction false} OnlySitesStmts(s: ElisionSet, ss: seq<Stmt>)
    ensures EraseStmts(MarkStmts(s, ss)) == EraseStmts(ss)
  {
    if ss != [] {
      OnlySitesStmt(s, ss[0]);
      OnlySitesStmts(s, ss[1..]);
      assert MarkStmts(s, ss)[1..] == MarkStmts(s, ss[1..]);
    }
  }

  lemma {:induction false} OnlySitesMethods(s: ElisionSet, ms: seq<Method>)
    ensures EraseMethods(MarkMethods(s, ms)) == EraseMethods(ms)
  {
    if ms != [] {
      OnlySitesStmts(s, ms[0].body);
      OnlySitesMethods(s, ms[1..]);
      assert MarkMethods(s, ms)[1..] == MarkMethods(s, ms[1..]);
    }
  }

  // ----- a program is known by its shape and its sites -----

  lemma Apart(a: seq<Site>, b: seq<Site>, c: seq<Site>, d: seq<Site>)
    requires |a| == |c| && a + b == c + d
    ensures a == c && b == d
  {
    assert a == (a + b)[..|a|] && c == (c + d)[..|a|];
    assert b == (a + b)[|a|..] && d == (c + d)[|a|..];
  }

  lemma {:induction false} DecideExpr(e: Expr, e': Expr)
    requires EraseExpr(e) == EraseExpr(e')
    ensures |SitesExpr(e)| == |SitesExpr(e')| && (SitesExpr(e) == SitesExpr(e') ==> e == e')
    decreases e
  {
    match e.kind {
      case Call(c, args, elide) =>
        DecideExpr(c, e'.kind.callee); DecideItems(args, e'.kind.args);
        if SitesExpr(e) == SitesExpr(e') {
          Apart([CallSite(e.span, elide)] + SitesExpr(c), SitesItems(args), [CallSite(e.span, e'.kind.elideArgs)]
              + SitesExpr(e'.kind.callee), SitesItems(e'.kind.args));
          Apart([CallSite(e.span, elide)], SitesExpr(c), [CallSite(e.span, e'.kind.elideArgs)], SitesExpr(e'.kind.callee));
        }
      case Wrap(_, x) => DecideExpr(x, e'.kind.inner);
      case Pair(_, l, r) =>
        DecideExpr(l, e'.kind.lhs); DecideExpr(r, e'.kind.rhs);
        if SitesExpr(e) == SitesExpr(e') {
          Apart(SitesExpr(l), SitesExpr(r), SitesExpr(e'.kind.lhs), SitesExpr(e'.kind.rhs));
        }
      case Ternary(c, y, n) =>
        DecideExpr(c, e'.kind.cond); DecideExpr(y, e'.kind.yes); DecideExpr(n, e'.kind.no);
        if SitesExpr(e) == SitesExpr(e') {
          Apart(SitesExpr(c) + SitesExpr(y), SitesExpr(n), SitesExpr(e'.kind.cond) + SitesExpr(e'.kind.yes),
              SitesExpr(e'.kind.no));
          Apart(SitesExpr(c), SitesExpr(y), SitesExpr(e'.kind.cond), SitesExpr(e'.kind.yes));
        }
      case List(_, items) => DecideItems(items, e'.kind.items);
      case Match(x, arms) =>
        DecideExpr(x, e'.kind.subject); DecideItems(arms, e'.kind.arms);
        if SitesExpr(e) == SitesExpr(e') {
          Apart(SitesExpr(x), SitesItems(arms), SitesExpr(e'.kind.subject), SitesItems(e'.kind.arms));
        }
      case Yield(x) => DecideOption(x, e'.kind.operand);
      case Range(a, b, st) =>
        DecideExpr(a, e'.kind.start); DecideExpr(b, e'.kind.end); DecideOption(st, e'.kind.step);
        if SitesExpr(e) == SitesExpr(e') {
          Apart(SitesExpr(a) + SitesExpr(b), SitesOption(st), SitesExpr(e'.kind.start) + SitesExpr(e'.kind.end),
              SitesOption(e'.kind.step));
          Apart(SitesExpr(a), SitesExpr(b), SitesExpr(e'.kind.start), SitesExpr(e'.kind.end));
        }
      case ArrowBlock(_, b) => DecideStmts(b, e'.kind.body);
      case Leaf(_) =>
    }
  }

  lemma {:induction false} DecideOption(x: Option<Expr>, x': Option<Expr>)
    requires EraseOption(x) == EraseOption(x')
    ensures |SitesOption(x)| == |SitesOption(x')| && (SitesOption(x) == SitesOption(x') ==> x == x')
    decreases x
  {
    if x.Some? {
      DecideExpr(x.value, x'.value);
    }
  }

  lemma {:induction false} DecideItem(i: Item, i': Item)
    requires EraseItem(i) == EraseItem(i')
    ensures |SitesItem(i)| == |SitesItem(i')| && (SitesItem(i) == SitesItem(i') ==> i == i')
    decreases i
  {
    match i {
      case Text(_) =>
      case One(_, e) => DecideExpr(e, i'.e);
      case Entry(k, v) =>
        DecideExpr(k, i'.key); DecideExpr(v, i'.value);
        if SitesItem(i) == SitesItem(i') {
          Apart(SitesExpr(k), SitesExpr(v), SitesExpr(i'.key), SitesExpr(i'.value));
        }
      case Arm(_, g, r) =>
        DecideOption(g, i'.guard); DecideExpr(r, i'.result);
        if SitesItem(i) == SitesItem(i') {
          Apart(SitesOption(g), SitesExpr(r), SitesOption(i'.guard), SitesExpr(i'.result));
        }
    }
  }

  lemma {:induction false} DecideItems(items: seq<Item>, items': seq<Item>)
    requires EraseItems(items) == EraseItems(items')
    ensures |SitesItems(items)| == |SitesItems(items')| && (SitesItems(items) == SitesItems(items') ==> items == items')
    decreases items
  {
    if items != [] {
      assert EraseItems(items)[0] == EraseItems(items')[0] && EraseItems(items)[1..] == EraseItems(items')[1..];
      assert EraseItems(items)[1..] == EraseItems(items[1..]) && EraseItems(items')[1..] == EraseItems(items'[1..]);
      DecideItem(items[0], items'[0]);
      DecideItems(items[1..], items'[1..]);
      if SitesItems(items) == SitesItems(items') {
        Apart(SitesItem(items[0]), SitesItems(items[1..]), SitesItem(items'[0]), SitesItems(items'[1..]));
        assert items == [items[0]] + items[1..] && items' == [items'[0]] + items'[1..];
      }
    }
  }

  lemma {:induction false} DecideStmt(stmt: Stmt, stmt': Stmt)
    requires EraseStmt(stmt) == EraseStmt(stmt')
    ensures |SitesStmt(stmt)| == |SitesStmt(stmt')| && (SitesStmt(stmt) == SitesStmt(stmt') ==> stmt == stmt')
    decreases stmt
  {
    match stmt {
      case Let(_, ty, init) =>
        DecideOption(init, stmt'.init);
        if SitesStmt(stmt) == SitesStmt(stmt') {
          Apart((if init.Some? then [LetSite(init.value.span, ty)] else []), SitesOption(init),
              (if init.Some? then [LetSite(init.value.span, stmt'.ty)] else []), SitesOption(stmt'.init));
        }
      case Fn(n, _, ret, b) =>
        DecideStmts(b, stmt'.body);
        if SitesStmt(stmt) == SitesStmt(stmt') {
          Apart([FnSite(n, ret)], SitesStmts(b), [FnSite(n, stmt'.ret)], SitesStmts(stmt'.body));
        }
      case Simple(_, e) => DecideExpr(e, stmt'.e);
      case Block(b) => DecideStmts(b, stmt'.body);
      case If(c, y, n) =>
        DecideExpr(c, stmt'.cond); DecideStmts(y, stmt'.yes); DecideBranch(n, stmt'.no);
        if SitesStmt(stmt) == SitesStmt(stmt') {
          Apart(SitesExpr(c) + SitesStmts(y), SitesBranch(n), SitesExpr(stmt'.cond) + SitesStmts(stmt'.yes),
              SitesBranch(stmt'.no));
          Apart(SitesExpr(c), SitesStmts(y), SitesExpr(stmt'.cond), SitesStmts(stmt'.yes));
        }
      case Loop(_, i, b) =>
        DecideExpr(i, stmt'.e); DecideStmts(b, stmt'.body);
        if SitesStmt(stmt) == SitesStmt(stmt') {
          Apart(SitesExpr(i), SitesStmts(b), SitesExpr(stmt'.e), SitesStmts(stmt'.body));
        }
      case ForRange(_, a, z, st, b) =>
        DecideExpr(a, stmt'.start); DecideExpr(z, stmt'.end); DecideOption(st, stmt'.step); DecideStmts(b, stmt'.body);
        if SitesStmt(stmt) == SitesStmt(stmt') {
          Apart(SitesExpr(a) + SitesExpr(z) + SitesOption(st), SitesStmts(b), SitesExpr(stmt'.start)
              + SitesExpr(stmt'.end) + SitesOption(stmt'.step), SitesStmts(stmt'.body));
          Apart(SitesExpr(a) + SitesExpr(z), SitesOption(st), SitesExpr(stmt'.start) + SitesExpr(stmt'.end),
              SitesOption(stmt'.step));
          Apart(SitesExpr(a), SitesExpr(z), SitesExpr(stmt'.start), SitesExpr(stmt'.end));
        }
      case Return(r) => DecideOption(r, stmt'.result);
      case Class(_, ms) => DecideMethods(ms, stmt'.methods);
      case Export(x) => DecideStmt(x, stmt'.inner);
      case Other(_) =>
    }
  }

  lemma {:induction false} DecideBranch(b: Branch, b': Branch)
    requires EraseBranch(b) == EraseBranch(b')
    ensures |SitesBranch(b)| == |SitesBranch(b')| && (SitesBranch(b) == SitesBranch(b') ==> b == b')
    decreases b
  {
    if b.Branch? {
      DecideStmts(b.body, b'.body);
    }
  }

  lemma {:induction false} DecideStmts(ss: seq<Stmt>, ss': seq<Stmt>)
    requires EraseStmts(ss) == EraseStmts(ss')
    ensures |SitesStmts(ss)| == |SitesStmts(ss')| && (SitesStmts(ss) == SitesStmts(ss') ==> ss == ss')
    decreases ss
  {
    if ss != [] {
      assert EraseStmts(ss)[0] == EraseStmts(ss')[0] && EraseStmts(ss)[1..] == EraseStmts(ss')[1..];
      assert EraseStmts(ss)[1..] == EraseStmts(ss[1..]) && EraseStmts(ss')[1..] == EraseStmts(ss'[1..]);
      DecideStmt(ss[0], ss'[0]);
      DecideStmts(ss[1..], ss'[1..]);
      if SitesStmts(ss) == SitesStmts(ss') {
        Apart(SitesStmt(ss[0]), SitesStmts(ss[1..]), SitesStmt(ss'[0]), SitesStmts(ss'[1..]));
        assert ss == [ss[0]] + ss[1..] && ss' == [ss'[0]] + ss'[1..];
      }
    }
  }

  lemma {:induction false} DecideMethods(ms: seq<Method>, ms': seq<Method>)
    requires EraseMethods(ms) == EraseMethods(ms')
    ensures |SitesMethods(ms)| == |SitesMethods(ms')| && (SitesMethods(ms) == SitesMethods(ms') ==> ms == ms')
    decreases ms
  {
    if ms != [] {
      assert EraseMethods(ms)[0] == EraseMethods(ms')[0] && EraseMethods(ms)[1..] == EraseMethods(ms')[1..];
      assert EraseMethods(ms)[1..] == EraseMethods(ms[1..]) && EraseMethods(ms')[1..] == EraseMethods(ms'[1..]);
      DecideStmts(ms[0].body, ms'[0].body);
      DecideMethods(ms[1..], ms'[1..]);
      if SitesMethods(ms) == SitesMethods(ms') {
        Apart(SitesStmts(ms[0].body), SitesMethods(ms[1..]), SitesStmts(ms'[0].body), SitesMethods(ms'[1..]));
        assert ms == [ms[0]] + ms[1..] && ms' == [ms'[0]] + ms'[1..];
      }
    }
  }

  // ----- whole programs -----

  /** The key of a visited site that can be counted: every call, every annotated let, every function. */
  function CallKey(x: Site): Option<Key> {
    if x.CallSite? then Some(x.key) else None
  }

  function LetKey(x: Site): Option<Key> {
    if x.LetSite? && x.ty.Some? then Some(x.key) else None
  }

  function FnKey(x: Site): Option<Key> {
    if x.FnSite? then Some(x.key) else None
  }

  function CallKeys(xs: seq<Site>): seq<Option<Key>> {
    seq(|xs|, k requires 0 <= k < |xs| => CallKey(xs[k]))
  }

  function LetKeys(xs: seq<Site>): seq<Option<Key>> {
    seq(|xs|, k requires 0 <= k < |xs| => LetKey(xs[k]))
  }

  function FnKeys(xs: seq<Site>): seq<Option<Key>> {
    seq(|xs|, k requires 0 <= k < |xs| => FnKey(xs[k]))
  }

  /** Where the proven keys are met. */
  function Hits<K(==)>(keys: seq<Option<K>>, proven: set<K>): set<int> {
    set k | 0 <= k < |keys| && keys[k].Some? && keys[k].value in proven
  }

  /** What the counters come to over these sites. */
  function Tally(s: ElisionSet, xs: seq<Site>): Counts {
    Counts(|Hits(CallKeys(xs), s.calls)|, |Hits(LetKeys(xs), s.lets)|, |Hits(FnKeys(xs), s.fnRets)|)
  }

  /** A marked program and the counts. */
  function MarkProgram(s: ElisionSet, program: seq<Stmt>): (seq<Stmt>, Counts) {
    (MarkStmts(s, program), Tally(s, SitesStmts(program)))
  }

  const NOTHING := ElisionSet({}, {}, {})

  ghost predicate Included(s: ElisionSet, t: ElisionSet) {
    s.calls <= t.calls && s.lets <= t.lets && s.fnRets <= t.fnRets
  }

  /** Marking makes each visited site what its own key calls for, in place, and touches nothing else: the
      program without its marks stays the same, and the result is the one program of that shape with
      those sites. */
  lemma MarkingIsExact(s: ElisionSet, program: seq<Stmt>, other: seq<Stmt>)
    ensures var marked := MarkProgram(s, program).0;
      && SitesStmts(marked) == MarkedAll(s, SitesStmts(program))
      && EraseStmts(marked) == EraseStmts(program)
      && (other == marked <==>
            EraseStmts(other) == EraseStmts(program) && SitesStmts(other) == MarkedAll(s, SitesStmts(program)))
  {
    SitesMarkedStmts(s, program);
    OnlySitesStmts(s, program);
    if EraseStmts(other) == EraseStmts(program) {
      DecideStmts(other, MarkStmts(s, program));
    }
  }

  /** Marking with two sets, in either order, is marking with both. */
  lemma MarkingJoins(s: ElisionSet, t: ElisionSet, program: seq<Stmt>)
    ensures MarkProgram(t, MarkProgram(s, program).0).0 == MarkProgram(Union(s, t), program).0
  {
    var once := MarkProgram(s, program).0;
    MarkingIsExact(s, program, once);
    MarkingIsExact(t, once, once);
    var xs := SitesStmts(program);
    assert MarkedAll(t, MarkedAll(s, xs)) == MarkedAll(Union(s, t), xs);
    MarkingIsExact(Union(s, t), program, MarkProgram(t, once).0);
    OnlySitesStmts(t, once);
    SitesMarkedStmts(t, once);
  }

  /** Nothing proven, nothing changed; marking again changes nothing; and a smaller set's marks are
      among a larger set's. */
  lemma MarkingLaws(s: ElisionSet, t: ElisionSet, program: seq<Stmt>)
    ensures MarkProgram(NOTHING, program) == (program, Counts(0, 0, 0))
    ensures MarkProgram(s, MarkProgram(s, program).0).0 == MarkProgram(s, program).0
    ensures Included(s, t) ==> MarkProgram(t, MarkProgram(s, program).0).0 == MarkProgram(t, program).0
    ensures MarkProgram(t, MarkProgram(s, program).0).0 == MarkProgram(s, MarkProgram(t, program).0).0
  {
    assert MarkedAll(NOTHING, SitesStmts(program)) == SitesStmts(program);
    MarkingIsExact(NOTHING, program, program);
    NothingHit(SitesStmts(program));
    MarkingJoins(s, s, program);
    assert Union(s, s) == s;
    MarkingJoins(s, t, program);
    MarkingJoins(t, s, program);
    assert Union(s, t) == Union(t, s);
    if Included(s, t) {
      assert Union(s, t) == t;
    }
  }

  lemma NothingHit(xs: seq<Site>)
    ensures Tally(NOTHING, xs) == Counts(0, 0, 0)
  {
    assert Hits(CallKeys(xs), {}) == {} && Hits(LetKeys(xs), {}) == {} && Hits(FnKeys(xs), {}) == {};
  }

  // ----- the count-parity gate -----

  ghost predicate Distinct<K>(keys: seq<Option<K>>) {
    forall j, k :: 0 <= j < k < |keys| && keys[j].Some? ==> keys[j] != keys[k]
  }

  ghost predicate Covers<K>(keys: seq<Option<K>>, proven: set<K>) {
    forall p :: p in proven ==> Some(p) in keys
  }

  lemma HitsOneMore<K>(keys: seq<Option<K>>, o: Option<K>, proven: set<K>)
    ensures |Hits(keys + [o], proven)| == |Hits(keys, proven)| + if o.Some? && o.value in proven then 1 else 0
  {
    var hits := Hits(keys, proven);
    assert Hits(keys + [o], proven) == if o.Some? && o.value in proven then hits + {|keys|} else hits;
  }

  /** Met once each at most, the proven keys are all met exactly when as many hits as keys are counted. */
  lemma {:induction false} HitsAll<K>(keys: seq<Option<K>>, proven: set<K>)
    requires Distinct(keys)
    ensures |Hits(keys, proven)| <= |proven|
    ensures |Hits(keys, proven)| == |proven| <==> Covers(keys, proven)
    decreases |keys|
  {
    if keys == [] {
      assert Hits(keys, proven) == {};
      if proven != {} {
        var p :| p in proven;
        assert Some(p) !in keys;
      }
    } else {
      var n := |keys| - 1;
      var o := keys[n];
      assert keys == keys[..n] + [o];
      HitsOneMore(keys[..n], o, proven);
      if o.Some? && o.value in proven {
        HitsAll(keys[..n], proven - {o.value});
        HitsWithout(keys[..n], proven, o.value);
        assert Covers(keys, proven) <==> Covers(keys[..n], proven - {o.value});
      } else {
        HitsAll(keys[..n], proven);
        assert Covers(keys, proven) <==> Covers(keys[..n], proven);
      }
    }
  }

  lemma HitsWithout<K>(keys: seq<Option<K>>, proven: set<K>, p: K)
    requires Some(p) !in keys
    ensures Hits(keys, proven - {p}) == Hits(keys, proven)
  {
  }

  /** When no two sites of a kind share a span, the counts add up to the size of the set exactly when
      the walk met every proven site; so the parity gate misses no site and raises no false alarm. */
  lemma ParityIsCoverage(s: ElisionSet, program: seq<Stmt>)
    requires var xs := SitesStmts(program); Distinct(CallKeys(xs)) && Distinct(LetKeys(xs)) && Distinct(FnKeys(xs))
    ensures var xs := SitesStmts(program);
      MarkProgram(s, program).1.Total() == |s.calls| + |s.lets| + |s.fnRets| <==>
        Covers(CallKeys(xs), s.calls) && Covers(LetKeys(xs), s.lets) && Covers(FnKeys(xs), s.fnRets)
  {
    var xs := SitesStmts(program);
    HitsAll(CallKeys(xs), s.calls);
    HitsAll(LetKeys(xs), s.lets);
    HitsAll(FnKeys(xs), s.fnRets);
  }

  // ----- the walk with its counters -----

  lemma TallyOneMore(s: ElisionSet, xs: seq<Site>, x: Site)
    ensures Tally(s, xs + [x]) == match x
      case CallSite(k, _) => Tally(s, xs).(calls := Tally(s, xs).calls + if k in s.calls then 1 else 0)
      case LetSite(k, ty) => Tally(s, xs).(lets := Tally(s, xs).lets + if ty.Some? && k in s.lets then 1 else 0)
      case FnSite(k, _) => Tally(s, xs).(fnRets := Tally(s, xs).fnRets + if k in s.fnRets then 1 else 0)
  {
    assert CallKeys(xs + [x]) == CallKeys(xs) + [CallKey(x)];
    assert LetKeys(xs + [x]) == LetKeys(xs) + [LetKey(x)];
    assert FnKeys(xs + [x]) == FnKeys(xs) + [FnKey(x)];
    HitsOneMore(CallKeys(xs), CallKey(x), s.calls);
    HitsOneMore(LetKeys(xs), LetKey(x), s.lets);
    HitsOneMore(FnKeys(xs), FnKey(x), s.fnRets);
  }

  lemma Joined(a: seq<Site>, b: seq<Site>, c: seq<Site>)
    ensures a + b + c == a + (b + c)
  {
  }

  /** The counters, and the sites met so far. */
  class Marker {
    const set_: ElisionSet
    var calls: nat
    var lets: nat
    var fnRets: nat
    ghost var met: seq<Site>

    ghost predicate Valid()
      reads this
    {
      Counts(calls, lets, fnRets) == Tally(set_, met)
    }

    constructor (s: ElisionSet)
      ensures Valid() && set_ == s && met == []
    {
      set_ := s;
      calls, lets, fnRets, met := 0, 0, 0, [];
      assert Hits(CallKeys([]), s.calls) == {} && Hits(LetKeys([]), s.lets) == {} && Hits(FnKeys([]), s.fnRets) == {};
    }

    /** Meets one site and counts it if it is proven. */
    method Meet(x: Site) returns (hit: bool)
      requires Valid()
      modifies this
      ensures Valid() && met == old(met) + [x]
      ensures hit == match x
        case CallSite(k, _) => k in set_.calls
        case LetSite(k, ty) => ty.Some? && k in set_.lets
        case FnSite(k, _) => k in set_.fnRets
    {
      TallyOneMore(set_, met, x);
      hit := false;
      match x {
        case CallSite(k, _) => if k in set_.calls { calls := calls + 1; hit := true; }
        case LetSite(k, ty) => if ty.Some? && k in set_.lets { lets := lets + 1; hit := true; }
        case FnSite(k, _) => if k in set_.fnRets { fnRets := fnRets + 1; hit := true; }
      }
      met := met + [x];
    }

    method VisitExpr(e: Expr) returns (m: Expr)
      requires Valid()
      modifies this
      ensures Valid() && m == MarkExpr(set_, e) && met == old(met) + SitesExpr(e)
      decreases e
    {
      match e.kind
      case Call(c, args, elide) =>
        m := VisitCall(e);
      case Wrap(f, x) =>
        var y := VisitExpr(x);
        m := e.(kind := Wrap(f, y));
      case Pair(f, l, r) =>
        var lhs, rhs := VisitTwo(l, r, e.kind);
        m := e.(kind := Pair(f, lhs, rhs));
      case Ternary(_, _, _) =>
        m := VisitThree(e);
      case List(f, items) =>
        var marked := VisitItems(items);
        m := e.(kind := List(f, marked));
      case Match(_, _) =>
        m := VisitThree(e);
      case Yield(x) =>
        var y := VisitOption(x);
        m := e.(kind := Yield(y));
      case Range(_, _, _) =>
        m := VisitThree(e);
      case ArrowBlock(h, b) =>
        var body := VisitStmts(b);
        m := e.(kind := ArrowBlock(h, body));
      case Leaf(_) =>
        m := e;
    }

    method VisitThree(e: Expr) returns (m: Expr)
      requires Valid() && (e.kind.Ternary? || e.kind.Match? || e.kind.Range?)
      modifies this
      ensures Valid() && m == MarkExpr(set_, e) && met == old(met) + SitesExpr(e)
      decreases e, 0
    {
      match e.kind {
        case Ternary(c, y, n) =>
          var cond, yes := VisitTwo(c, y, e.kind);
          var no := VisitExpr(n);
          m := e.(kind := Ternary(cond, yes, no));
          Joined(old(met), SitesExpr(c) + SitesExpr(y), SitesExpr(n));
        case Match(x, arms) =>
          var subject := VisitExpr(x);
          var marked := VisitItems(arms);
          m := e.(kind := Match(subject, marked));
          Joined(old(met), SitesExpr(x), SitesItems(arms));
        case Range(a, b, st) =>
          var start, end := VisitTwo(a, b, e.kind);
          var step := VisitOption(st);
          m := e.(kind := Range(start, end, step));
          Joined(old(met), SitesExpr(a) + SitesExpr(b), SitesOption(st));
      }
    }

    method VisitCall(e: Expr) returns (m: Expr)
      requires Valid() && e.kind.Call?
      modifies this
      ensures Valid() && m == MarkExpr(set_, e) && met == old(met) + SitesExpr(e)
      decreases e, 0
    {
      ghost var site := [CallSite(e.span, e.kind.elideArgs)];
      var hit := Meet(CallSite(e.span, e.kind.elideArgs));
      var callee := VisitExpr(e.kind.callee);
      var marked := VisitItems(e.kind.args);
      m := e.(kind := Call(callee, marked, e.kind.elideArgs || hit));
      Joined(old(met), site, SitesExpr(e.kind.callee));
      Joined(old(met), site + SitesExpr(e.kind.callee), SitesItems(e.kind.args));
    }

    method VisitTwo(a: Expr, b: Expr, ghost whole: Kind) returns (x: Expr, y: Expr)
      requires Valid() && a < whole && b < whole
      modifies this
      ensures Valid() && x == MarkExpr(set_, a) && y == MarkExpr(set_, b) && met == old(met) + (SitesExpr(a) + SitesExpr(b))
      decreases whole, 0
    {
      x := VisitExpr(a);
      y := VisitExpr(b);
    }

    method VisitOption(x: Option<Expr>) returns (m: Option<Expr>)
      requires Valid()
      modifies this
      ensures Valid() && m == MarkOption(set_, x) && met == old(met) + SitesOption(x)
      decreases x
    {
      match x
      case None =>
        m := None;
      case Some(e) =>
        var y := VisitExpr(e);
        m := Some(y);
    }

    method VisitItem(i: Item) returns (m: Item)
      requires Valid()
      modifies this
      ensures Valid() && m == MarkItem(set_, i) && met == old(met) + SitesItem(i)
      decreases i
    {
      match i
      case Text(_) =>
        m := i;
      case One(f, e) =>
        var x := VisitExpr(e);
        m := One(f, x);
      case Entry(k, v) =>
        var key := VisitExpr(k);
        var value := VisitExpr(v);
        m := Entry(key, value);
        assert met == old(met) + (SitesExpr(k) + SitesExpr(v));
      case Arm(p, g, r) =>
        var guard := VisitOption(g);
        var result := VisitExpr(r);
        m := Arm(p, guard, result);
        assert met == old(met) + (SitesOption(g) + SitesExpr(r));
    }

    method VisitItems(items: seq<Item>) returns (ms: seq<Item>)
      requires Valid()
      modifies this
      ensures Valid() && ms == MarkItems(set_, items) && met == old(met) + SitesItems(items)
      decreases items
    {
      ms := [];
      assert items[0..] == items;
      for i := 0 to |items|
        invariant Valid() && ms + MarkItems(set_, items[i..]) == MarkItems(set_, items)
        invariant met + SitesItems(items[i..]) == old(met) + SitesItems(items)
      {
        assert items[i..][1..] == items[i + 1..];
        ghost var before := met;
        var m := VisitItem(items[i]);
        ms := ms + [m];
        Joined(before, SitesItem(items[i]), SitesItems(items[i + 1..]));
      }
    }

    method VisitStmts(ss: seq<Stmt>) returns (ms: seq<Stmt>)
      requires Valid()
      modifies this
      ensures Valid() && ms == MarkStmts(set_, ss) && met == old(met) + SitesStmts(ss)
      decreases ss
    {
      ms := [];
      assert ss[0..] == ss;
      for i := 0 to |ss|
        invariant Valid() && ms + MarkStmts(set_, ss[i..]) == MarkStmts(set_, ss)
        invariant met + SitesStmts(ss[i..]) == old(met) + SitesStmts(ss)
      {
        assert ss[i..][1..] == ss[i + 1..];
        ghost var before := met;
        var m := VisitStmt(ss[i]);
        ms := ms + [m];
        Joined(before, SitesStmt(ss[i]), SitesStmts(ss[i + 1..]));
      }
    }

    method VisitMethods(methods: seq<Method>) returns (ms: seq<Method>)
      requires Valid()
      modifies this
      ensures Valid() && ms == MarkMethods(set_, methods) && met == old(met) + SitesMethods(methods)
      decreases methods
    {
      ms := [];
      assert methods[0..] == methods;
      for i := 0 to |methods|
        invariant Valid() && ms + MarkMethods(set_, methods[i..]) == MarkMethods(set_, methods)
        invariant met + SitesMethods(methods[i..]) == old(met) + SitesMethods(methods)
      {
        assert methods[i..][1..] == methods[i + 1..];
        ghost var before := met;
        var body := VisitStmts(methods[i].body);
        ms := ms + [methods[i].(body := body)];
        Joined(before, SitesStmts(methods[i].body), SitesMethods(methods[i + 1..]));
      }
    }

    method VisitBranch(b: Branch) returns (m: Branch)
      requires Valid()
      modifies this
      ensures Valid() && m == MarkBranch(set_, b) && met == old(met) + SitesBranch(b)
      decreases b
    {
      match b
      case NoBranch =>
        m := b;
      case Branch(ss) =>
        var body := VisitStmts(ss);
        m := Branch(body);
    }

    method VisitStmt(stmt: Stmt) returns (m: Stmt)
      requires Valid()
      modifies this
      ensures Valid() && m == MarkStmt(set_, stmt) && met == old(met) + SitesStmt(stmt)
      decreases stmt
    {
      match stmt
      case Let(h, ty, init) =>
        var kept := ty;
        if init.Some? {
          var hit := Meet(LetSite(init.value.span, ty));
          if hit {
            kept := None;
          }
        }
        var value := VisitOption(init);
        m := Let(h, kept, value);
        assert met == old(met) + ((if init.Some? then [LetSite(init.value.span, ty)] else []) + SitesOption(init));
      case Fn(n, h, ret, b) =>
        var hit := Meet(FnSite(n, ret));
        var body := VisitStmts(b);
        m := Fn(n, h, if hit then None else ret, body);
        Joined(old(met), [FnSite(n, ret)], SitesStmts(b));
      case Simple(h, e) =>
        var x := VisitExpr(e);
        m := Simple(h, x);
      case Block(b) =>
        var body := VisitStmts(b);
        m := Block(body);
      case If(c, y, n) =>
        var cond := VisitExpr(c);
        var yes := VisitStmts(y);
        var no := VisitBranch(n);
        m := If(cond, yes, no);
        Joined(old(met), SitesExpr(c), SitesStmts(y));
        Joined(old(met), SitesExpr(c) + SitesStmts(y), SitesBranch(n));
      case Loop(h, i, b) =>
        var x := VisitExpr(i);
        var body := VisitStmts(b);
        m := Loop(h, x, body);
        Joined(old(met), SitesExpr(i), SitesStmts(b));
      case ForRange(h, a, z, st, b) =>
        m := VisitForRange(stmt);
      case Return(r) =>
        var x := VisitOption(r);
        m := Return(x);
      case Class(h, methods) =>
        var marked := VisitMethods(methods);
        m := Class(h, marked);
      case Export(x) =>
        var y := VisitStmt(x);
        m := Export(y);
      case Other(_) =>
        m := stmt;
    }

    method VisitForRange(stmt: Stmt) returns (m: Stmt)
      requires Valid() && stmt.ForRange?
      modifies this
      ensures Valid() && m == MarkStmt(set_, stmt) && met == old(met) + SitesStmt(stmt)
      decreases stmt, 0
    {
      var start := VisitExpr(stmt.start);
      var end := VisitExpr(stmt.end);
      var step := VisitOption(stmt.step);
      var body := VisitStmts(stmt.body);
      m := ForRange(stmt.head, start, end, step, body);
      Joined(old(met), SitesExpr(stmt.start), SitesExpr(stmt.end));
      Joined(old(met), SitesExpr(stmt.start) + SitesExpr(stmt.end), SitesOption(stmt.step));
      Joined(old(met), SitesExpr(stmt.start) + SitesExpr(stmt.end) + SitesOption(stmt.step), SitesStmts(stmt.body));
    }
  }

  /** The walk from the top: the program it leaves and the counts it returns. */
  method RunMarker(s: ElisionSet, program: seq<Stmt>) returns (marked: seq<Stmt>, counts: Counts)
    ensures (marked, counts) == MarkProgram(s, program)
  {
    var marker := new Marker(s);
    marked := marker.VisitStmts(program);
    counts := Counts(marker.calls, marker.lets, marker.fnRets);
    assert [] + SitesStmts(program) == SitesStmts(program);
  }
}
