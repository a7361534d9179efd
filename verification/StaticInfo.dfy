/**
 Static metadata of an AS: values per interface and per pair of interfaces, made symmetric in
 place while the maps are iterated in an arbitrary order, and the part put into AS entries.
 */
module StaticInfo {
  import opened Basics

  type Row = map<IfId, int>

  /** One interface: the value towards the neighbour, and those to other interfaces (None is nil). */
  datatype Entry = Entry(inter: int, intra: Option<Row>)

  type Table = map<IfId, Entry>

  /** The value given for the pair, if any. */
  function Get(t: Table, x: IfId, y: IfId): Option<int> {
    if x in t && t[x].intra.Some? && y in t[x].intra.value then Some(t[x].intra.value[y]) else None
  }

  /** The more conservative of two values: the larger latency, the smaller anything else. */
  function Combine(larger: bool, a: Option<int>, b: Option<int>): Option<int> {
    if a.None? then b else if b.None? then a
    else if (if larger then b.value > a.value else b.value < a.value) then b else a
  }

  // ----- Closed forms ----------------------------------------------------------------

  /** The symmetric value of a pair.  `all` says whether rows may be created for it. */
  function SymValue(t: Table, larger: bool, all: bool, x: IfId, y: IfId): Option<int> {
    if x == y then None
    else if all || (x in t && y in t) then Combine(larger, Get(t, x, y), Get(t, y, x))
    else Get(t, x, y)
  }

  /** The interfaces for which another row gives a value. */
  function Targets(t: Table): set<IfId> {
    set x, y | x in t && t[x].intra.Some? && y in t[x].intra.value && x != y :: y
  }

  function SymRow(t: Table, larger: bool, all: bool, x: IfId): Row {
    map y: IfId | y in t.Keys + Targets(t) && SymValue(t, larger, all, x, y).Some?
      :: SymValue(t, larger, all, x, y).value
  }

  function SymEntry(t: Table, larger: bool, all: bool, x: IfId): Entry {
    Entry(if x in t then t[x].inter else 0,
          if (x in t && t[x].intra.Some?) || x in Targets(t) then Some(SymRow(t, larger, all, x)) else None)
  }

  /** What symmetrizing a table means, without any order; rows may be created if `all`. */
  function Sym(t: Table, larger: bool, all: bool): Table {
    map x | x in t.Keys + (if all then Targets(t) else {}) :: SymEntry(t, larger, all, x)
  }

  lemma SymGet(t: Table, larger: bool, all: bool, x: IfId, y: IfId)
    ensures Get(Sym(t, larger, all), x, y) == if all || x in t then SymValue(t, larger, all, x, y) else None
  {
    if Get(t, x, y).Some? && x != y { assert y in Targets(t); }
    if Get(t, y, x).Some? && x != y { assert x in Targets(t); }
  }

  /** The result is symmetric between configured interfaces and has no diagonal. */
  lemma SymSymmetric(t: Table, larger: bool, all: bool, x: IfId, y: IfId)
    requires all || (x in t && y in t)
    ensures Get(Sym(t, larger, all), x, y) == Get(Sym(t, larger, all), y, x)
    ensures x == y ==> Get(Sym(t, larger, all), x, y) == None
  {
    hide Sym;
    SymGet(t, larger, all, x, y);
    SymGet(t, larger, all, y, x);
  }

  // ----- The nested loops ------------------------------------------------------------

  /**
   How far the loops are: rows done, diagonal entries removed, the row being visited and its
   entries already pushed to the other side.
   */
  datatype Progress = Progress(done: set<IfId>, cleared: set<IfId>, row: IfId, within: set<IfId>) {
    /** The value row `y` gives for `x` was already pushed to row `x`. */
    predicate Pushed(y: IfId, x: IfId) { y in done || (y == row && x in within) }
  }

  function Value(t: Table, larger: bool, all: bool, p: Progress, x: IfId, y: IfId): Option<int> {
    if x == y then (if x in p.cleared then None else Get(t, x, y))
    else if p.Pushed(y, x) && (all || (x in t && y in t)) then Combine(larger, Get(t, x, y), Get(t, y, x))
    else Get(t, x, y)
  }

  /** Some other row has pushed a value to row `x`. */
  ghost predicate Incoming(t: Table, p: Progress, x: IfId) {
    exists y: IfId :: y != x && Get(t, y, x).Some? && p.Pushed(y, x)
  }

  /** No value went to a configured row without a map. */
  ghost predicate Safe(t: Table, p: Progress) {
    forall x: IfId :: x in t && Incoming(t, p, x) ==> t[x].intra.Some?
  }

  ghost predicate Shape(t: Table, all: bool, p: Progress, cur: Table) {
    && (forall x: IfId :: x in cur <==> x in t || (all && Incoming(t, p, x)))
    && (forall x <- cur ::
          && cur[x].inter == (if x in t then t[x].inter else 0)
          && (cur[x].intra.Some? <==> (x in t && t[x].intra.Some?) || Incoming(t, p, x)))
  }

  /** The table part way through: every value, row and nil map is determined by the progress alone. */
  ghost predicate Matches(t: Table, larger: bool, all: bool, p: Progress, cur: Table) {
    && Shape(t, all, p, cur)
    && forall x: IfId, y: IfId :: Get(cur, x, y) == if x in cur then Value(t, larger, all, p, x, y) else None
  }

  function RowOf(t: Table, x: IfId): Row {
    if x in t && t[x].intra.Some? then t[x].intra.value else map[]
  }

  /** One step of the inner loop: row `j` takes the value that row `i` gives for it, if it is better. */
  function Push(cur: Table, larger: bool, i: IfId, j: IfId, v: int): Table {
    var row := RowOf(cur, j);
    var better := i !in row || if larger then v > row[i] else v < row[i];
    cur[j := Entry(if j in cur then cur[j].inter else 0, Some(if better then row[i := v] else row))]
  }

  lemma PushGet(cur: Table, larger: bool, i: IfId, j: IfId, v: int, x: IfId, y: IfId)
    ensures Get(Push(cur, larger, i, j, v), x, y)
            == if x == j && y == i then Combine(larger, Get(cur, x, y), Some(v)) else Get(cur, x, y)
  {
  }

  predicate InRow(p: Progress, j: IfId) { p.row !in p.done && j !in p.within && j != p.row }

  lemma PushShape(t: Table, larger: bool, all: bool, p: Progress, cur: Table, j: IfId, v: int)
    requires Shape(t, all, p, cur) && InRow(p, j) && (all || j in cur) && Get(t, p.row, j).Some?
    ensures Shape(t, all, p.(within := p.within + {j}), Push(cur, larger, p.row, j, v))
  {
    var q := p.(within := p.within + {j});
    forall x: IfId ensures Incoming(t, q, x) <==> Incoming(t, p, x) || x == j {
      if Incoming(t, p, x) {
        var y: IfId :| y != x && Get(t, y, x).Some? && p.Pushed(y, x);
        assert q.Pushed(y, x);
      }
      if x == j { assert q.Pushed(p.row, j); }
      if Incoming(t, q, x) && x != j {
        var y: IfId :| y != x && Get(t, y, x).Some? && q.Pushed(y, x);
        assert p.Pushed(y, x);
      }
    }
  }

  /** A push of a value that the original row did not give goes back to where it came from. */
  lemma PushBackShape(t: Table, larger: bool, all: bool, p: Progress, cur: Table, j: IfId, v: int)
    requires Shape(t, all, p, cur) && InRow(p, j) && Get(t, p.row, j).None? && Get(t, j, p.row).Some?
    ensures Shape(t, all, p.(within := p.within + {j}), Push(cur, larger, p.row, j, v))
  {
    SkipShape(t, all, p, cur, j);
  }

  lemma SkipShape(t: Table, all: bool, p: Progress, cur: Table, j: IfId)
    requires Shape(t, all, p, cur) && (Get(t, p.row, j).None? || (!all && j !in t))
    ensures Shape(t, all, p.(within := p.within + {j}), cur)
  {
    var q := p.(within := p.within + {j});
    forall x: IfId | x in cur || Get(t, p.row, j).None? ensures Incoming(t, q, x) <==> Incoming(t, p, x) {
      if Incoming(t, p, x) {
        var y: IfId :| y != x && Get(t, y, x).Some? && p.Pushed(y, x);
        assert q.Pushed(y, x);
      }
      if Incoming(t, q, x) {
        var y: IfId :| y != x && Get(t, y, x).Some? && q.Pushed(y, x);
        assert p.Pushed(y, x);
      }
    }
  }

  lemma PushMatches(t: Table, larger: bool, all: bool, p: Progress, cur: Table, j: IfId, v: int)
    requires Matches(t, larger, all, p, cur) && InRow(p, j) && (all || j in cur)
    requires p.row in cur && Get(cur, p.row, j) == Some(v)
    ensures Matches(t, larger, all, p.(within := p.within + {j}), Push(cur, larger, p.row, j, v))
  {
    hide Push, Shape;
    var i, q, next := p.row, p.(within := p.within + {j}), Push(cur, larger, p.row, j, v);
    if Get(t, i, j).Some? {
      PushShape(t, larger, all, p, cur, j, v);
    } else {
      PushBackShape(t, larger, all, p, cur, j, v);
    }
    ShapeKeys(t, all, p, cur);
    PushKeys(cur, larger, i, j, v);
    forall x: IfId, y: IfId ensures Get(next, x, y) == if x in next then Value(t, larger, all, q, x, y) else None {
      PushGet(cur, larger, i, j, v, x, y);
      if x == j && j !in cur { assert Get(t, x, y).None? && (y != x && p.Pushed(y, x) ==> Get(t, y, x).None?); }
    }
  }

  lemma ShapeKeys(t: Table, all: bool, p: Progress, cur: Table)
    requires Shape(t, all, p, cur)
    ensures t.Keys <= cur.Keys && (!all ==> cur.Keys == t.Keys)
    ensures all ==> forall x: IfId, y: IfId :: x !in cur && y != x && p.Pushed(y, x) ==> Get(t, y, x).None?
  {
  }

  lemma PushKeys(cur: Table, larger: bool, i: IfId, j: IfId, v: int)
    ensures Push(cur, larger, i, j, v).Keys == cur.Keys + {j}
  {
  }

  /** An entry for an interface that is not configured is left alone. */
  lemma SkipMatches(t: Table, larger: bool, p: Progress, cur: Table, j: IfId)
    requires Matches(t, larger, false, p, cur) && InRow(p, j) && j !in cur
    ensures Matches(t, larger, false, p.(within := p.within + {j}), cur)
  {
    ShapeKeys(t, false, p, cur);
    SkipShape(t, false, p, cur, j);
    hide Shape;
  }

  /** Removing the diagonal entry of the row visited next. */
  function Clear(cur: Table, i: IfId): Table {
    if i in cur && cur[i].intra.Some? then cur[i := cur[i].(intra := Some(cur[i].intra.value - {i}))] else cur
  }

  lemma ClearMatches(t: Table, larger: bool, all: bool, done: set<IfId>, i: IfId, j: IfId, cur: Table)
    requires Matches(t, larger, all, Progress(done, done, j, {}), cur)
    ensures Matches(t, larger, all, Progress(done, done + {i}, i, {}), Clear(cur, i))
    ensures Safe(t, Progress(done, done, j, {})) ==> Safe(t, Progress(done, done + {i}, i, {}))
  {
    var p, q, next := Progress(done, done, j, {}), Progress(done, done + {i}, i, {}), Clear(cur, i);
    assert forall x: IfId, y: IfId :: p.Pushed(y, x) <==> q.Pushed(y, x);
    assert forall x: IfId :: Incoming(t, p, x) <==> Incoming(t, q, x);
    forall x: IfId, y: IfId ensures Get(next, x, y) == if x in next then Value(t, larger, all, q, x, y) else None {
      assert Get(next, x, y) == if x == i && y == i then None else Get(cur, x, y);
    }
  }

  /** A row is done when all its entries were pushed. */
  lemma RowMatches(t: Table, larger: bool, all: bool, p: Progress, cur: Table)
    requires Matches(t, larger, all, p, cur) && p.row !in p.done && p.row in p.cleared
    requires p.row in cur && forall j: IfId :: Get(cur, p.row, j).Some? ==> j in p.within
    ensures Matches(t, larger, all, Progress(p.done + {p.row}, p.cleared, p.row, {}), cur)
    ensures Safe(t, p) ==> Safe(t, Progress(p.done + {p.row}, p.cleared, p.row, {}))
  {
    var q := Progress(p.done + {p.row}, p.cleared, p.row, {});
    forall y: IfId, x: IfId | y != x && Get(t, y, x).Some? ensures p.Pushed(y, x) <==> q.Pushed(y, x) {
      assert Get(cur, y, x) == if y in cur then Value(t, larger, all, p, y, x) else None;
    }
    assert forall x: IfId :: Incoming(t, p, x) <==> Incoming(t, q, x);
    assert forall x: IfId, y: IfId :: Value(t, larger, all, p, x, y) == Value(t, larger, all, q, x, y);
  }

  /** With every configured row done, the progress no longer shows. */
  lemma AllDone(t: Table, larger: bool, all: bool, done: set<IfId>, i: IfId, cur: Table)
    requires Matches(t, larger, all, Progress(done, done, i, {}), cur) && t.Keys <= done
    ensures cur == Sym(t, larger, all)
  {
    var p := Progress(done, done, i, {});
    forall x: IfId ensures Incoming(t, p, x) <==> x in Targets(t) {
      if x in Targets(t) {
        var y: IfId :| y in t && t[y].intra.Some? && x in t[y].intra.value && y != x;
        assert Get(t, y, x).Some? && p.Pushed(y, x);
      }
    }
    var r := Sym(t, larger, all);
    assert cur.Keys == r.Keys;
    forall x | x in cur ensures cur[x] == r[x] {
      assert cur[x].intra.Some? <==> r[x].intra.Some?;
      if cur[x].intra.Some? {
        forall y: IfId ensures Get(cur, x, y) == Get(r, x, y) { SymGet(t, larger, all, x, y); }
        SameRow(cur, r, x);
      }
    }
  }

  lemma SameRow(a: Table, b: Table, x: IfId)
    requires x in a && x in b && a[x].intra.Some? && b[x].intra.Some?
    requires forall y: IfId :: Get(a, x, y) == Get(b, x, y)
    ensures a[x].intra == b[x].intra
  {
    var m, n := a[x].intra.value, b[x].intra.value;
    assert forall y: IfId :: y in m <==> Get(a, x, y).Some?;
    assert forall y: IfId :: y in n <==> Get(b, x, y).Some?;
    assert forall y <- m :: m[y] == Get(a, x, y).value && n[y] == Get(b, x, y).value;
    assert m == n;
  }

  /** The values of a metric other than hops made symmetric, whatever the order of iteration. */
  method Symmetrize(t: Table, larger: bool) returns (cur: Table)
    ensures cur == Sym(t, larger, false)
  {
    hide Matches, Push, Sym;
    cur := t;
    var todo := t.Keys;
    ghost var at: IfId := 0;
    StartMatches(t, larger, false, at);
    assert t.Keys - todo == {};
    while todo != {}
      invariant todo <= t.Keys
      invariant Matches(t, larger, false, Progress(t.Keys - todo, t.Keys - todo, at, {}), cur)
    {
      var i :| i in todo;
      ghost var done := t.Keys - todo;
      ClearMatches(t, larger, false, done, i, at, cur);
      cur := Clear(cur, i);
      cur := PushRow(t, larger, Progress(done, done + {i}, i, {}), i, cur);
      todo, at := todo - {i}, i;
      assert t.Keys - todo == done + {i};
    }
    assert t.Keys - todo == t.Keys;
    AllDone(t, larger, false, t.Keys, at, cur);
  }

  lemma StartMatches(t: Table, larger: bool, all: bool, i: IfId)
    ensures Matches(t, larger, all, Progress({}, {}, i, {}), t)
  {
  }

  lemma MatchesKeys(t: Table, larger: bool, all: bool, p: Progress, cur: Table)
    requires Matches(t, larger, all, p, cur)
    ensures t.Keys <= cur.Keys && (!all ==> cur.Keys == t.Keys)
    ensures p.row in p.cleared ==> p.row !in RowOf(cur, p.row)
  {
    if p.row in p.cleared {
      assert Get(cur, p.row, p.row) == if p.row in cur then Value(t, larger, all, p, p.row, p.row) else None;
    }
  }

  lemma PushRowOf(cur: Table, larger: bool, i: IfId, j: IfId, v: int)
    requires i != j
    ensures RowOf(Push(cur, larger, i, j, v), i) == RowOf(cur, i)
  {
  }

  lemma RowGet(cur: Table, i: IfId)
    ensures forall j: IfId :: Get(cur, i, j) == if j in RowOf(cur, i) then Some(RowOf(cur, i)[j]) else None
  {
  }

  /** The inner loop: row `i` gives its values to the other configured rows. */
  method PushRow(ghost t: Table, larger: bool, ghost p: Progress, i: IfId, start: Table) returns (cur: Table)
    requires Matches(t, larger, false, p, start) && p.row in t
    requires i == p.row && i !in p.done && i in p.cleared && p.within == {}
    ensures Matches(t, larger, false, Progress(p.done + {p.row}, p.cleared, p.row, {}), cur)
  {
    hide Matches, Get;
    cur := start;
    MatchesKeys(t, larger, false, p, cur);
    var row := RowOf(cur, i);
    var left := row.Keys;
    assert row.Keys - left == {} && p == p.(within := {});
    while left != {}
      invariant left <= row.Keys && RowOf(cur, i) == row && i !in row
      invariant Matches(t, larger, false, p.(within := row.Keys - left), cur)
    {
      var j :| j in left;
      var v := row[j];
      ghost var within := row.Keys - left;
      MatchesKeys(t, larger, false, p.(within := within), cur);
      RowGet(cur, i);
      left := left - {j};
      assert row.Keys - left == within + {j};
      if j !in cur {
        SkipMatches(t, larger, p.(within := within), cur, j);
      } else {
        PushMatches(t, larger, false, p.(within := within), cur, j, v);
        PushRowOf(cur, larger, i, j, v);
        ghost var before := cur;
        if cur[j].intra.None? {
          cur := cur[j := cur[j].(intra := Some(map[]))];
        }
        var transposed := cur[j].intra.value;
        if i !in transposed || (if larger then v > transposed[i] else v < transposed[i]) {
          cur := cur[j := cur[j].(intra := Some(transposed[i := v]))];
        }
        assert cur == Push(before, larger, i, j, v);
      }
    }
    assert row.Keys - left == row.Keys;
    MatchesKeys(t, larger, false, p.(within := row.Keys), cur);
    RowGet(cur, i);
    RowMatches(t, larger, false, p.(within := row.Keys), cur);
  }

  // ----- Hops: rows are created ------------------------------------------------------

  /** Some row gives a value for a configured interface whose map is nil. */
  ghost predicate NilTarget(t: Table) { exists x: IfId :: x in Targets(t) && x in t && t[x].intra.None? }

  lemma SafeStep(t: Table, p: Progress, cur: Table, j: IfId)
    requires Matches(t, false, true, p, cur) && Safe(t, p) && j != p.row
    requires j in cur ==> cur[j].intra.Some?
    ensures Safe(t, p.(within := p.within + {j}))
  {
    var q := p.(within := p.within + {j});
    forall x: IfId | x in t && Incoming(t, q, x) ensures t[x].intra.Some? {
      var y: IfId :| y != x && Get(t, y, x).Some? && q.Pushed(y, x);
      if x != j || y in p.done { assert p.Pushed(y, x); }
    }
  }

  lemma PanicStep(t: Table, p: Progress, cur: Table, j: IfId)
    requires Matches(t, false, true, p, cur) && j != p.row && p.row in cur && Get(cur, p.row, j).Some?
    requires j in cur && cur[j].intra.None?
    ensures NilTarget(t)
  {
    assert Get(cur, p.row, j) == Value(t, false, true, p, p.row, j);
    assert j in Targets(t);
  }

  lemma NoPanic(t: Table, done: set<IfId>, i: IfId)
    requires Safe(t, Progress(done, done, i, {})) && t.Keys <= done
    ensures !NilTarget(t)
  {
    var p := Progress(done, done, i, {});
    forall x: IfId | x in Targets(t) && x in t ensures t[x].intra.Some? {
      var y: IfId :| y in t && t[y].intra.Some? && x in t[y].intra.value && y != x;
      assert Get(t, y, x).Some? && p.Pushed(y, x);
    }
  }

  lemma KeysBounded(t: Table, p: Progress, cur: Table)
    requires Matches(t, false, true, p, cur)
    ensures cur.Keys <= t.Keys + Targets(t)
  {
    forall x | x in cur && x !in t ensures x in Targets(t) {
      var y: IfId :| y != x && Get(t, y, x).Some? && p.Pushed(y, x);
    }
  }

  /**
   The hop counts made symmetric.  Rows created on the way may or may not be visited.  The
   code panics, in every order of iteration, exactly if a value has to go into a nil map.
   */
  method SymmetrizeHops(t: Table) returns (ok: bool, cur: Table)
    ensures ok <==> !NilTarget(t)
    ensures ok ==> cur == Sym(t, false, true)
  {
    hide Matches, Push, Sym, Safe, NilTarget, Targets;
    cur := t;
    var todo := t.Keys;
    ghost var done: set<IfId>, at: IfId := {}, 0;
    StartMatches(t, false, true, at);
    StartSafe(t, at);
    while todo != {}
      invariant done !! todo && t.Keys <= done + todo <= cur.Keys
      invariant Matches(t, false, true, Progress(done, done, at, {}), cur)
      invariant Safe(t, Progress(done, done, at, {}))
      decreases t.Keys + Targets(t) - done
    {
      var i :| i in todo;
      KeysBounded(t, Progress(done, done, at, {}), cur);
      ClearMatches(t, false, true, done, i, at, cur);
      cur := Clear(cur, i);
      var created;
      ok, cur, created := PushHopsRow(t, Progress(done, done + {i}, i, {}), i, cur);
      if !ok { return; }
      done, at := done + {i}, i;
      todo := todo - {i} + created;
    }
    NoPanic(t, done, at);
    AllDone(t, false, true, done, at, cur);
    ok := true;
  }

  lemma StartSafe(t: Table, i: IfId)
    ensures Safe(t, Progress({}, {}, i, {}))
  {
  }

  /** The inner loop; `created` are those of the created rows that the outer loop will visit. */
  method PushHopsRow(ghost t: Table, ghost p: Progress, i: IfId, start: Table)
    returns (ok: bool, cur: Table, created: set<IfId>)
    requires Matches(t, false, true, p, start) && i in start && Safe(t, p)
    requires i == p.row && i !in p.done && i in p.cleared && p.within == {}
    ensures !ok ==> NilTarget(t)
    ensures ok ==>
      && Matches(t, false, true, Progress(p.done + {i}, p.cleared, i, {}), cur)
      && Safe(t, Progress(p.done + {i}, p.cleared, i, {}))
      && start.Keys <= cur.Keys && created <= cur.Keys - start.Keys
  {
    hide Matches, Get, Safe, NilTarget;
    cur, created := start, {};
    MatchesKeys(t, false, true, p, cur);
    var row := RowOf(cur, i);
    var left := row.Keys;
    assert row.Keys - left == {} && p == p.(within := {});
    while left != {}
      invariant left <= row.Keys && RowOf(cur, i) == row && i !in row && i in cur
      invariant Matches(t, false, true, p.(within := row.Keys - left), cur)
      invariant Safe(t, p.(within := row.Keys - left))
      invariant start.Keys <= cur.Keys && created <= cur.Keys - start.Keys
    {
      var j :| j in left;
      var v := row[j];
      ghost var q := p.(within := row.Keys - left);
      RowGet(cur, i);
      left := left - {j};
      assert p.(within := row.Keys - left) == q.(within := q.within + {j});
      ghost var before := cur;
      if j !in cur {
        SafeStep(t, q, cur, j);
        cur := cur[j := Entry(0, Some(map[]))];
        if * { created := created + {j}; }
      } else if cur[j].intra.None? {
        PanicStep(t, q, cur, j);
        return false, cur, created;
      } else {
        SafeStep(t, q, cur, j);
      }
      var transposed := cur[j].intra.value;
      if i !in transposed || v < transposed[i] {
        cur := cur[j := cur[j].(intra := Some(transposed[i := v]))];
      }
      PushMatches(t, false, true, q, before, j, v);
      PushRowOf(before, false, i, j, v);
      assert cur == Push(before, false, i, j, v);
    }
    assert row.Keys - left == row.Keys;
    RowGet(cur, i);
    RowMatches(t, false, true, p.(within := row.Keys), cur);
    ok := true;
  }

  // ----- The whole configuration -----------------------------------------------------

  /** The table without anything about interface 0. */
  function NoZero(t: Table): Table {
    map x | x in t && x != 0 :: Entry(t[x].inter, if t[x].intra.Some? then Some(t[x].intra.value - {0}) else None)
  }

  function Cleaned(t: Table, larger: bool, all: bool): Table { Sym(NoZero(t), larger, all) }

  lemma NoZeroGet(t: Table, x: IfId, y: IfId)
    ensures Get(NoZero(t), x, y) == if x == 0 || y == 0 then None else Get(t, x, y)
  {
  }

  /** What a clean table gives for a pair, in terms of the configured values. */
  lemma CleanedGet(t: Table, larger: bool, all: bool, x: IfId, y: IfId)
    ensures Get(Cleaned(t, larger, all), x, y) ==
            if x == 0 || y == 0 || x == y || (!all && x !in t) then None
            else if all || y in t then Combine(larger, Get(t, x, y), Get(t, y, x))
            else Get(t, x, y)
  {
    SymGet(NoZero(t), larger, all, x, y);
    NoZeroGet(t, x, y);
    NoZeroGet(t, y, x);
  }

  lemma TargetsGet(t: Table, x: IfId)
    ensures x in Targets(t) <==> exists y: IfId :: y != x && Get(t, y, x).Some?
  {
    if x in Targets(t) {
      var y: IfId :| y in t && t[y].intra.Some? && x in t[y].intra.value && y != x;
      assert Get(t, y, x).Some?;
    }
  }

  /** Two tables with the same rows, nil maps and values are the same. */
  lemma SameTable(a: Table, b: Table)
    requires a.Keys == b.Keys
    requires forall x <- a :: a[x].inter == b[x].inter && (a[x].intra.Some? <==> b[x].intra.Some?)
    requires forall x: IfId, y: IfId :: Get(a, x, y) == Get(b, x, y)
    ensures a == b
  {
    forall x | x in a ensures a[x] == b[x] {
      if a[x].intra.Some? { SameRow(a, b, x); }
    }
  }

  /** Where some other row gives a value for `x`, a clean table gives the value back. */
  lemma CleanTargets(t: Table, larger: bool, all: bool, x: IfId)
    requires x in Targets(Cleaned(t, larger, all)) && (all || x in Cleaned(t, larger, all))
    ensures var c := Cleaned(t, larger, all); x in c && c[x].intra.Some?
  {
    hide Sym, NoZero;
    var c := Cleaned(t, larger, all);
    hide Cleaned;
    TargetsGet(c, x);
    var y: IfId :| y != x && Get(c, y, x).Some?;
    CleanedKeys(t, larger, x);
    CleanedKeys(t, larger, y);
    CleanedGet(t, larger, all, x, y);
    CleanedGet(t, larger, all, y, x);
    assert Get(c, x, y).Some?;
  }

  lemma CleanedKeys(t: Table, larger: bool, x: IfId)
    ensures x in Cleaned(t, larger, false) <==> x in t && x != 0
  {
  }

  /** Cleaning a clean table changes nothing, and does not panic. */
  lemma CleanIdempotent(t: Table, larger: bool, all: bool)
    ensures Cleaned(Cleaned(t, larger, all), larger, all) == Cleaned(t, larger, all)
    ensures all ==> !NilTarget(NoZero(Cleaned(t, larger, all)))
  {
    var c := Cleaned(t, larger, all);
    var d := Sym(c, larger, all);
    NoZeroSame(t, larger, all);
    forall x: IfId | x in Targets(c) && (all || x in c) ensures x in c && c[x].intra.Some? {
      CleanTargets(t, larger, all, x);
    }
    SymShape(c, larger, all);
    forall x: IfId, y: IfId ensures Get(d, x, y) == Get(c, x, y) {
      SymGet(c, larger, all, x, y);
      CleanedKeys(t, larger, x);
      CleanedKeys(t, larger, y);
      CleanedGet(t, larger, all, x, y);
      CleanedGet(t, larger, all, y, x);
    }
    hide Sym, NoZero, Cleaned, Get;
    SameTable(d, c);
  }

  lemma SymShape(t: Table, larger: bool, all: bool)
    ensures var r := Sym(t, larger, all);
      && r.Keys == t.Keys + (if all then Targets(t) else {})
      && forall x <- r ::
           && r[x].inter == (if x in t then t[x].inter else 0)
           && (r[x].intra.Some? <==> (x in t && t[x].intra.Some?) || x in Targets(t))
  {
  }

  lemma NoZeroSame(t: Table, larger: bool, all: bool)
    ensures NoZero(Cleaned(t, larger, all)) == Cleaned(t, larger, all)
  {
    var c := Cleaned(t, larger, all);
    assert 0 !in c by {
      if 0 in Targets(NoZero(t)) {
        TargetsGet(NoZero(t), 0);
        var y: IfId :| y != 0 && Get(NoZero(t), y, 0).Some?;
        NoZeroGet(t, y, 0);
      }
    }
    forall x: IfId, y: IfId ensures Get(NoZero(c), x, y) == Get(c, x, y) {
      NoZeroGet(c, x, y);
      CleanedGet(t, larger, all, x, y);
    }
    SameTable(NoZero(c), c);
  }

  /** A configuration for which the code panics: interface 1 gives a hop count to 2, which has no map. */
  lemma NilMapPanics()
    ensures NilTarget(NoZero(map[1 := Entry(0, Some(map[2 := 5])), 2 := Entry(0, None)]))
  {
    var t := NoZero(map[1 := Entry(0, Some(map[2 := 5])), 2 := Entry(0, None)]);
    assert 2 in Targets(t) by { assert 1 in t && t[1].intra.Some? && 2 in t[1].intra.value; }
  }
}
