/**
 The history of lambdas: a table of fixed size that records names and whether each is open, and
 that makes room by overwriting a closed entry. To its users it is a bounded set of open names.
 */
module History {
  import opened Arithmetic
  import opened Collections

  datatype Op = Peek | Open | Close

  /** An unused cell holds the empty name. */
  datatype Table = Table(names: seq<string>, present: seq<bool>)

  predicate Shaped(t: Table) {
    |t.names| == |t.present| && t.names != []
  }

  function Empty(size: nat): Table {
    Table(seq(size, _ => ""), seq(size, _ => false))
  }

  // ----- what an access computes

  /** The first cell from `i` on that holds the name or is unused; the size if there is none. */
  function Find(names: seq<string>, name: string, i: nat): (k: nat)
    requires i <= |names|
    ensures i <= k <= |names|
    ensures forall j :: i <= j < k ==> names[j] != name && names[j] != ""
    ensures k < |names| ==> names[k] == name || names[k] == ""
    decreases |names| - i
  {
    if i == |names| || names[i] == name || names[i] == "" then i else Find(names, name, i + 1)
  }

  /** The first closed cell from `start + k` on, around the table; none after a full circle. */
  function FirstClosed(present: seq<bool>, start: nat, k: nat): (c: Option<nat>)
    requires start < |present| && k <= |present|
    ensures c.Some? ==> c.value < |present| && !present[c.value]
    decreases |present| - k
  {
    if k == |present| then None
    else if !present[(start + k) % |present|] then Some((start + k) % |present|)
    else FirstClosed(present, start, k + 1)
  }

  /** The cell that an access settles on, if any. */
  function Cell(t: Table, name: string, random: nat): (c: Option<nat>)
    requires Shaped(t) && random < |t.names|
    ensures c.Some? ==> c.value < |t.names|
  {
    var k := Find(t.names, name, 0);
    if k < |t.names| then Some(k) else FirstClosed(t.present, random, 0)
  }

  datatype Outcome = Outcome(table: Table, result: int)

  function Access(t: Table, name: string, op: Op, random: nat): Outcome
    requires Shaped(t) && random < |t.names|
  {
    match Cell(t, name, random)
    case None => Outcome(t, 0)
    case Some(c) =>
      var names := t.names[c := name];
      (match op
       case Open => Outcome(Table(names, t.present[c := true]), 1)
       case Close => Outcome(Table(names, t.present[c := false]), 0)
       case Peek => Outcome(Table(names, t.present), if t.present[c] then 1 else 0))
  }

  class LambdaHistoryHandler {
    const hnames: array<string>
    const present: array<bool>

    ghost predicate Valid()
      reads this
    {
      hnames.Length == present.Length > 0
    }

    ghost function State(): Table
      reads this, hnames, present
    {
      Table(hnames[..], present[..])
    }

    constructor (size: nat)
      requires size > 0
      ensures Valid() && State() == Empty(size) && hnames.Length == size
      ensures fresh(hnames) && fresh(present)
    {
      hnames := new string[size](_ => "");
      present := new bool[size](_ => false);
    }

    method HandlerAccess(name: string, op: Op, random: nat) returns (p: int)
      requires Valid() && random < hnames.Length
      modifies hnames, present
      ensures Outcome(State(), p) == Access(old(State()), name, op, random)
    {
      var ind := 0;
      var found := false;
      ghost var t := State();
      while ind < hnames.Length && !found
        invariant 0 <= ind <= hnames.Length
        invariant !found ==> State() == t && Find(t.names, name, 0) == Find(t.names, name, ind)
        invariant found ==> ind < hnames.Length && Find(t.names, name, 0) == ind
        invariant found ==> State() == Table(t.names[ind := name], t.present)
        decreases hnames.Length - ind, !found
      {
        if hnames[ind] == name {
          found := true;
          assert t.names[ind := name] == t.names;
        } else if hnames[ind] == "" {
          hnames[ind] := name;
          assert hnames[..] == t.names[ind := name];
          found := true;
        } else {
          ind := ind + 1;
        }
      }
      if !found {
        var c := FindClosed(random);
        if c.None? {
          return 0;
        }
        ind := c.value;
        hnames[ind] := name;
        assert hnames[..] == t.names[ind := name];
      }
      p := 0;
      if op == Open {
        p := 1;
        present[ind] := true;
        assert present[..] == t.present[ind := true];
      } else if op == Close {
        present[ind] := false;
        assert present[..] == t.present[ind := false];
      } else if present[ind] {
        p := 1;
      }
    }

    /** The probe from a random cell; it gives up when it is back there. */
    method FindClosed(random: nat) returns (c: Option<nat>)
      requires Valid() && random < present.Length
      ensures c == FirstClosed(present[..], random, 0)
      ensures c.None? <==> forall i :: 0 <= i < present.Length ==> present[i]
    {
      ClosedIffFound(present[..], random);
      var n := present.Length;
      var ran := random;
      ghost var k := 0;
      Wrap(random, 0, n);
      while present[ran]
        invariant ran < n && k < n && ran == (random + k) % n
        invariant FirstClosed(present[..], random, 0) == FirstClosed(present[..], random, k)
        decreases n - k
      {
        NextIndex(random + k, n);
        ran := (ran + 1) % n;
        if ran == random {
          BackAtRandom(random, k + 1, n);
          return None;
        }
        k := k + 1;
        if k == n {
          Wrap(random, n, n);
        }
      }
      return Some(ran);
    }
  }

  // ----- arithmetic of the probe

  lemma BackAtRandom(start: nat, k: nat, n: nat)
    requires start < n && 0 < k <= n && (start + k) % n == start
    ensures k == n
  {
    Wrap(start, k, n);
  }

  lemma {:induction false} FindsClosed(present: seq<bool>, start: nat, k: nat, i: nat)
    requires start < |present| && k <= i < |present| && !present[(start + i) % |present|]
    ensures FirstClosed(present, start, k).Some?
    decreases |present| - k
  {
    if k < i {
      FindsClosed(present, start, k + 1, i);
    }
  }

  /** The probe finds a closed cell whenever there is one. */
  lemma ClosedIffFound(present: seq<bool>, start: nat)
    requires start < |present|
    ensures FirstClosed(present, start, 0).None? <==> forall i :: 0 <= i < |present| ==> present[i]
  {
    var n := |present|;
    forall j | 0 <= j < n && !present[j] ensures FirstClosed(present, start, 0).Some? {
      var i := if start <= j then j - start else j - start + n;
      Wrap(start, i, n);
      FindsClosed(present, start, 0, i);
    }
  }

  /** How many steps the probe needs from `start` to a cell, around the table. */
  function Steps(start: nat, i: nat, n: nat): nat
    requires start < n && i < n
  {
    if start <= i then i - start else i - start + n
  }

  /** The cell that the probe takes is the closed one that it reaches in the fewest steps. */
  lemma {:induction false} FirstClosedIsNearest(present: seq<bool>, start: nat, k: nat, c: nat)
    requires start < |present| && k <= |present| && FirstClosed(present, start, k) == Some(c)
    ensures k <= Steps(start, c, |present|)
    ensures forall i: nat :: i < |present| && k <= Steps(start, i, |present|) < Steps(start, c, |present|) ==> present[i]
    decreases |present| - k
  {
    Wrap(start, k, |present|);
    if c != (start + k) % |present| {
      FirstClosedIsNearest(present, start, k + 1, c);
    }
  }

  /** The cell is the first that holds the name or is unused, or else the first closed one from the random
      cell on. */
  ghost predicate Takes(t: Table, name: string, random: nat, c: nat)
    requires Shaped(t) && random < |t.names|
  {
    var n := |t.names|;
    && c < n
    && if name in t.names || "" in t.names then
         (t.names[c] == name || t.names[c] == "") && forall j :: 0 <= j < c ==> t.names[j] != name && t.names[j] != ""
       else
         !t.present[c] && forall i :: 0 <= i < |t.present| && Steps(random, i, n) < Steps(random, c, n) ==> t.present[i]
  }

  lemma CellIsTaken(t: Table, name: string, random: nat)
    requires Shaped(t) && random < |t.names|
    ensures
      var c := Cell(t, name, random);
      && (c.None? <==> name !in t.names && "" !in t.names && forall i :: 0 <= i < |t.names| ==> t.present[i])
      && (c.Some? ==> Takes(t, name, random, c.value))
  {
    var k := Find(t.names, name, 0);
    ClosedIffFound(t.present, random);
    if k == |t.names| && Cell(t, name, random).Some? {
      FirstClosedIsNearest(t.present, random, 0, Cell(t, name, random).value);
    }
  }

  /** What one access does. It fails when all cells are open and have other names, and then changes nothing.
      Otherwise the cell that it takes holds the name from then on, an OPEN opens the cell and returns 1, a
      CLOSE closes it and returns 0, a PEEK tells whether it is open, and all other cells stay as they are. */
  lemma AccessDecides(t: Table, name: string, op: Op, random: nat)
    requires Shaped(t) && random < |t.names|
    ensures
      var out := Access(t, name, op, random);
      var t' := out.table;
      if name !in t.names && "" !in t.names && forall i :: 0 <= i < |t.names| ==> t.present[i] then
        t' == t && out.result == 0
      else
        exists c: nat ::
          && Takes(t, name, random, c) && Settles(t, t', c, name)
          && t'.present[c] == (if op == Open then true else if op == Close then false else t.present[c])
          && out.result == (if t'.present[c] then 1 else 0)
  {
    CellIsTaken(t, name, random);
    var cell := Cell(t, name, random);
    if cell.Some? {
      CellOfName(t, name, op, random);
      var c := cell.value;
      var out := Access(t, name, op, random);
      assert out.result == if out.table.present[c] then 1 else 0;
      assert Takes(t, name, random, c) && Settles(t, out.table, c, name);
    }
  }

  // ----- recorded names

  /** The recorded names are distinct and fill a prefix; unused cells are closed. */
  ghost predicate Valid(t: Table) {
    && Shaped(t)
    && (forall i, j :: 0 <= i < j < |t.names| && t.names[j] != "" ==> t.names[i] != "" && t.names[i] != t.names[j])
    && (forall i :: 0 <= i < |t.names| && t.names[i] == "" ==> !t.present[i])
  }

  predicate AllOpen(t: Table) {
    forall i :: 0 <= i < |t.present| ==> t.present[i]
  }

  /** An access to the empty name that leaves a gap in the names, or an open cell without a name: an
      OPEN that finds a cell, and a PEEK or CLOSE that overwrites a closed entry other than the last. */
  predicate Tears(t: Table, name: string, op: Op, random: nat)
    requires Shaped(t) && random < |t.names|
  {
    && name == ""
    && if op == Open then !AllOpen(t)
       else
         && "" !in t.names
         && FirstClosed(t.present, random, 0).Some? && FirstClosed(t.present, random, 0).value != |t.names| - 1
  }

  lemma EmptyNameCell(t: Table, random: nat)
    requires Shaped(t) && random < |t.names|
    ensures Cell(t, "", random) == if "" in t.names then Some(Find(t.names, "", 0)) else FirstClosed(t.present, random, 0)
    ensures "" in t.names ==> t.names[Find(t.names, "", 0)] == ""
  {
    if "" in t.names {
      var i :| 0 <= i < |t.names| && t.names[i] == "";
    }
  }

  lemma EmptyNameKeepsValid(t: Table, op: Op, random: nat)
    requires Valid(t) && random < |t.names|
    ensures Valid(Access(t, "", op, random).table) <==> !Tears(t, "", op, random)
  {
    EmptyNameCell(t, random);
    ClosedIffFound(t.present, random);
    var c := Cell(t, "", random);
    if c.Some? {
      var t' := Access(t, "", op, random).table;
      assert t'.names[c.value] == "";
      if "" in t.names {
        assert t'.names == t.names;
      } else if c.value != |t.names| - 1 {
        assert t'.names[c.value + 1] != "";
      }
    }
  }

  lemma NamedKeepsValid(t: Table, name: string, op: Op, random: nat)
    requires Valid(t) && name != "" && random < |t.names|
    ensures Valid(Access(t, name, op, random).table)
  {
    var k := Find(t.names, name, 0);
    if k < |t.names| {
      assert forall i :: 0 <= i < |t.names| && i != k ==> t.names[i] != name;
    }
  }

  /** An access keeps the names distinct and in a prefix if and only if it does not tear them. */
  lemma AccessKeepsValidIff(t: Table, name: string, op: Op, random: nat)
    requires Valid(t) && random < |t.names|
    ensures Valid(Access(t, name, op, random).table) <==> !Tears(t, name, op, random)
  {
    if name == "" {
      EmptyNameKeepsValid(t, op, random);
    } else {
      NamedKeepsValid(t, name, op, random);
    }
  }

  // ----- open entries

  /** Each open entry has a name, and a search for that name ends there. */
  ghost predicate Findable(t: Table) {
    && Shaped(t)
    && forall i {:trigger t.present[i]} :: 0 <= i < |t.names| && t.present[i] ==>
         t.names[i] != "" && forall j :: 0 <= j < i ==> t.names[j] != "" && t.names[j] != t.names[i]
  }

  /** An access to the empty name that hides an open entry or opens a cell without a name: an OPEN that
      finds a cell, and a PEEK or CLOSE that overwrites a closed entry in front of an open one. */
  predicate Misleads(t: Table, name: string, op: Op, random: nat)
    requires Shaped(t) && random < |t.names|
  {
    && name == ""
    && if op == Open then !AllOpen(t)
       else
         && "" !in t.names && FirstClosed(t.present, random, 0).Some?
         && exists i :: FirstClosed(t.present, random, 0).value < i < |t.present| && t.present[i]
  }

  /** An access that settles on a cell gives it the name, and changes no other cell. */
  ghost predicate Settles(t: Table, t': Table, c: nat, name: string) {
    && Shaped(t) && Shaped(t') && c < |t.names| && t'.names == t.names[c := name]
    && forall i {:trigger t'.present[i]} :: 0 <= i < |t.names| && i != c ==> t'.present[i] == t.present[i]
  }

  /** The cell of a name holds it, or is unused, or is closed; no cell in front of it does the former. */
  lemma CellOfName(t: Table, name: string, op: Op, random: nat)
    requires Shaped(t) && random < |t.names| && Cell(t, name, random).Some?
    ensures
      var c := Cell(t, name, random).value;
      && Settles(t, Access(t, name, op, random).table, c, name)
      && (forall j :: 0 <= j < c ==> t.names[j] != name && t.names[j] != "")
      && (t.names[c] == name || t.names[c] == "" || !t.present[c])
  {
  }

  lemma NamedKeepsFindable(t: Table, name: string, op: Op, random: nat)
    requires Findable(t) && name != "" && random < |t.names|
    ensures Findable(Access(t, name, op, random).table)
  {
    var t' := Access(t, name, op, random).table;
    if Cell(t, name, random).Some? {
      var c := Cell(t, name, random).value;
      CellOfName(t, name, op, random);
      forall i | 0 <= i < |t'.names| && t'.present[i]
        ensures t'.names[i] != "" && forall j :: 0 <= j < i ==> t'.names[j] != "" && t'.names[j] != t'.names[i]
      {
        if i != c {
          assert t.present[i];
        }
      }
    }
  }

  lemma EmptyNameKeepsFindable(t: Table, op: Op, random: nat)
    requires Findable(t) && random < |t.names|
    ensures Findable(Access(t, "", op, random).table) <==> !Misleads(t, "", op, random)
  {
    EmptyNameCell(t, random);
    ClosedIffFound(t.present, random);
    var t' := Access(t, "", op, random).table;
    var cell := Cell(t, "", random);
    if cell.Some? {
      var c := cell.value;
      assert t'.names[c] == "";
      assert forall i :: 0 <= i < |t.names| && i != c ==> t'.names[i] == t.names[i] && t'.present[i] == t.present[i];
      if Misleads(t, "", op, random) {
        assert op == Open ==> t'.present[c];
        if op != Open {
          var i :| c < i < |t.present| && t.present[i];
          assert t'.present[i];
        }
      }
    }
  }

  /** An access keeps every open entry findable if and only if it does not mislead. */
  lemma AccessKeepsFindableIff(t: Table, name: string, op: Op, random: nat)
    requires Findable(t) && random < |t.names|
    ensures Findable(Access(t, name, op, random).table) <==> !Misleads(t, name, op, random)
  {
    if name == "" {
      EmptyNameKeepsFindable(t, op, random);
    } else {
      NamedKeepsFindable(t, name, op, random);
    }
  }

  /** An open entry is never overwritten. */
  lemma OpenEntriesStay(t: Table, name: string, op: Op, random: nat, i: nat)
    requires Findable(t) && random < |t.names| && i < |t.names| && t.present[i]
    ensures
      var t' := Access(t, name, op, random).table;
      |t'.names| == |t.names| && t'.names[i] == t.names[i]
  {
    if Cell(t, name, random).Some? {
      CellOfName(t, name, op, random);
    }
  }

  // ----- the table as a bounded set

  function OpenOnes(names: seq<string>, present: seq<bool>): set<string>
    requires |names| == |present|
  {
    set i | 0 <= i < |names| && present[i] :: names[i]
  }

  function OpenNames(t: Table): set<string>
    requires Shaped(t)
  {
    OpenOnes(t.names, t.present)
  }

  lemma OpenOnesFront(names: seq<string>, present: seq<bool>)
    requires |names| == |present| && names != []
    ensures OpenOnes(names, present) == OpenOnes(names[1..], present[1..]) + (if present[0] then {names[0]} else {})
  {
    var s, rest := OpenOnes(names, present), OpenOnes(names[1..], present[1..]);
    forall x | x in rest ensures x in s {
      var i :| 0 <= i < |names[1..]| && present[1..][i] && names[1..][i] == x;
      assert present[i + 1] && names[i + 1] == x;
    }
    forall x | x in s && !(present[0] && x == names[0]) ensures x in rest {
      var i :| 0 <= i < |names| && present[i] && names[i] == x;
      assert present[1..][i - 1] && names[1..][i - 1] == x;
    }
  }

  /** Since names are distinct, there are as many open names as open cells. */
  lemma {:induction false} OpenNamesSize(names: seq<string>, present: seq<bool>)
    requires |names| == |present|
    requires forall i, j :: 0 <= i < j < |names| && present[i] && present[j] ==> names[i] != names[j]
    ensures |OpenOnes(names, present)| == Count(present, true)
  {
    if names == [] {
      assert OpenOnes(names, present) == {};
    } else {
      OpenNamesSize(names[1..], present[1..]);
      OpenOnesFront(names, present);
      if present[0] {
        assert names[0] !in OpenOnes(names[1..], present[1..]);
      }
    }
  }

  lemma {:induction false} CountTrue(present: seq<bool>)
    ensures Count(present, true) <= |present|
    ensures Count(present, true) == |present| <==> forall i :: 0 <= i < |present| ==> present[i]
  {
    if present != [] {
      CountTrue(present[1..]);
      if forall i :: 0 <= i < |present[1..]| ==> present[1..][i] {
        assert forall i :: 1 <= i < |present| ==> present[i] == present[1..][i - 1];
      }
    }
  }

  /** The table is full of open entries exactly when it has as many open names as cells. */
  lemma FullIffAllOpen(t: Table)
    requires Findable(t)
    ensures |OpenNames(t)| <= |t.names|
    ensures |OpenNames(t)| == |t.names| <==> AllOpen(t)
  {
    OpenNamesSize(t.names, t.present);
    CountTrue(t.present);
  }

  /** The cell of a name that is open is the one where it stands. */
  lemma CellOfOpenName(t: Table, name: string, random: nat)
    requires Findable(t) && random < |t.names|
    ensures name in OpenNames(t) <==>
              Cell(t, name, random).Some? && t.names[Cell(t, name, random).value] == name && t.present[Cell(t, name, random).value]
    ensures Cell(t, name, random).None? ==> AllOpen(t) && name !in t.names
  {
    var k := Find(t.names, name, 0);
    ClosedIffFound(t.present, random);
    if name in OpenNames(t) {
      var i :| 0 <= i < |t.names| && t.present[i] && t.names[i] == name;
      assert k == i;
    }
  }

  lemma OpenAfter(t: Table, t': Table, c: nat, name: string)
    requires Findable(t') && Settles(t, t', c, name)
    requires t.names[c] == name || t.names[c] == "" || !t.present[c]
    requires t.names[c] == "" ==> !t.present[c]
    requires forall j :: 0 <= j < c ==> t.names[j] != name
    ensures OpenNames(t') - {name} == OpenNames(t) - {name}
    ensures name in OpenNames(t') <==> t'.present[c]
  {
    forall x | x in OpenNames(t') - {name} ensures x in OpenNames(t) {
      var i :| 0 <= i < |t'.names| && t'.present[i] && t'.names[i] == x;
      assert t.present[i] && t.names[i] == x;
    }
    forall x | x in OpenNames(t) - {name} ensures x in OpenNames(t') {
      var i :| 0 <= i < |t.names| && t.present[i] && t.names[i] == x;
      assert t'.present[i] && t'.names[i] == x;
    }
    if name in OpenNames(t') {
      var i :| 0 <= i < |t'.names| && t'.present[i] && t'.names[i] == name;
      assert t'.names[c] == name;
      assert i <= c;
    }
    if t'.present[c] {
      assert t'.names[c] == name;
    }
  }

  /** The table is a bounded set of open names. Opening succeeds unless the name is closed and all
      cells are open; closing removes; peeking tells and changes nothing. */
  function SpecAfter(open: set<string>, size: nat, name: string, op: Op): set<string> {
    match op
    case Peek => open
    case Open => if name in open || |open| < size then open + {name} else open
    case Close => open - {name}
  }

  function SpecResult(open: set<string>, size: nat, name: string, op: Op): int {
    match op
    case Peek => if name in open then 1 else 0
    case Open => if name in open || |open| < size then 1 else 0
    case Close => 0
  }

  /** The set after an access that settled on cell `c`. */
  lemma CellRefinesSet(t: Table, name: string, op: Op, random: nat, c: nat)
    requires Findable(t) && random < |t.names| && Cell(t, name, random) == Some(c) && !Misleads(t, name, op, random)
    ensures
      var o := Access(t, name, op, random);
      && Shaped(o.table)
      && OpenNames(o.table) - {name} == OpenNames(t) - {name}
      && (name in OpenNames(o.table) <==> op == Open || (op == Peek && name in OpenNames(t)))
  {
    AccessKeepsFindableIff(t, name, op, random);
    CellOfOpenName(t, name, random);
    CellOfName(t, name, op, random);
    OpenAfter(t, Access(t, name, op, random).table, c, name);
  }

  lemma SameButOne(a: set<string>, b: set<string>, x: string)
    requires a - {x} == b - {x}
    ensures x in a ==> a == b + {x}
    ensures x !in a ==> a == b - {x}
    ensures (x in a <==> x in b) ==> a == b
  {
    assert forall y :: y in a && y != x ==> y in a - {x};
    assert forall y :: y in b && y != x ==> y in b - {x};
  }

  lemma FoundRefinesSet(t: Table, name: string, op: Op, random: nat)
    requires Findable(t) && random < |t.names| && Cell(t, name, random).Some? && !Misleads(t, name, op, random)
    ensures
      var o := Access(t, name, op, random);
      && Shaped(o.table)
      && OpenNames(o.table) == SpecAfter(OpenNames(t), |t.names|, name, op)
  {
    var c := Cell(t, name, random).value;
    CellRefinesSet(t, name, op, random, c);
    CellOfName(t, name, op, random);
    SomeRoom(t, name, c);
    SameButOne(OpenNames(Access(t, name, op, random).table), OpenNames(t), name);
  }

  lemma FoundResult(t: Table, name: string, op: Op, random: nat)
    requires Findable(t) && random < |t.names| && Cell(t, name, random).Some? && !Misleads(t, name, op, random)
    ensures Access(t, name, op, random).result == SpecResult(OpenNames(t), |t.names|, name, op)
  {
    CellOfOpenName(t, name, random);
    CellOfName(t, name, op, random);
    SomeRoom(t, name, Cell(t, name, random).value);
  }

  /** An access that does not mislead acts on the open names as on a bounded set. */
  lemma AccessRefinesSet(t: Table, name: string, op: Op, random: nat)
    requires Findable(t) && random < |t.names| && !Misleads(t, name, op, random)
    ensures
      var o := Access(t, name, op, random);
      && Findable(o.table) && |o.table.names| == |t.names|
      && OpenNames(o.table) == SpecAfter(OpenNames(t), |t.names|, name, op)
      && o.result == SpecResult(OpenNames(t), |t.names|, name, op)
  {
    AccessKeepsFindableIff(t, name, op, random);
    if Cell(t, name, random).Some? {
      FoundRefinesSet(t, name, op, random);
      FoundResult(t, name, op, random);
    } else {
      CellOfOpenName(t, name, random);
      FullIffAllOpen(t);
      assert OpenNames(t) - {name} == OpenNames(t);
    }
  }

  /** An access that finds a cell finds the name open or not all names open. */
  lemma SomeRoom(t: Table, name: string, c: nat)
    requires Findable(t) && c < |t.names| && (t.names[c] == name || t.names[c] == "" || !t.present[c])
    ensures name in OpenNames(t) || |OpenNames(t)| < |t.names|
  {
    FullIffAllOpen(t);
    if t.present[c] {
      assert t.names[c] in OpenNames(t);
    }
  }

  // ----- runs

  datatype Event = Event(name: string, op: Op, random: nat)

  function Next(t: Table, e: Event): Table
    requires Shaped(t)
  {
    if e.random < |t.names| then Access(t, e.name, e.op, e.random).table else t
  }

  lemma NextShaped(t: Table, e: Event)
    requires Shaped(t)
    ensures Shaped(Next(t, e)) && |Next(t, e).names| == |t.names|
  {
  }

  function Exec(t: Table, run: seq<Event>): (r: Table)
    requires Shaped(t)
    ensures Shaped(r) && |r.names| == |t.names|
  {
    if run == [] then t
    else
      var r := Exec(t, run[..|run| - 1]);
      NextShaped(r, run[|run| - 1]);
      Next(r, run[|run| - 1])
  }

  lemma ExecPrefix(t: Table, run: seq<Event>, k: nat)
    requires Shaped(t) && k < |run|
    ensures Exec(t, run[..k + 1]) == Next(Exec(t, run[..k]), run[k])
  {
    assert run[..k + 1][..k] == run[..k];
  }

  predicate TearsAt(t: Table, e: Event)
    requires Shaped(t)
  {
    e.random < |t.names| && Tears(t, e.name, e.op, e.random)
  }

  predicate MisleadsAt(t: Table, e: Event)
    requires Shaped(t)
  {
    e.random < |t.names| && Misleads(t, e.name, e.op, e.random)
  }

  ghost predicate NeverTears(size: nat, run: seq<Event>)
    requires size > 0
  {
    forall k :: 0 <= k < |run| ==> !TearsAt(Exec(Empty(size), run[..k]), run[k])
  }

  ghost predicate NeverMisleads(size: nat, run: seq<Event>)
    requires size > 0
  {
    forall k :: 0 <= k < |run| ==> !MisleadsAt(Exec(Empty(size), run[..k]), run[k])
  }

  /** Only accesses to the empty name can tear or mislead. */
  lemma NamedNeverMisleads(size: nat, run: seq<Event>)
    requires size > 0 && forall i :: 0 <= i < |run| ==> run[i].name != ""
    ensures NeverMisleads(size, run) && NeverTears(size, run)
  {
  }

  // ----- when the names stay in order

  ghost predicate ValidThroughout(size: nat, run: seq<Event>)
    requires size > 0
  {
    forall k :: 0 <= k <= |run| ==> Valid(Exec(Empty(size), run[..k]))
  }

  lemma ValidNextIff(t: Table, e: Event)
    requires Valid(t)
    ensures Valid(Next(t, e)) <==> !TearsAt(t, e)
  {
    if e.random < |t.names| {
      AccessKeepsValidIff(t, e.name, e.op, e.random);
    }
  }

  lemma {:induction false} NeverTearsIsValid(size: nat, run: seq<Event>, k: nat)
    requires size > 0 && NeverTears(size, run) && k <= |run|
    ensures Valid(Exec(Empty(size), run[..k]))
  {
    if k > 0 {
      NeverTearsIsValid(size, run, k - 1);
      ExecPrefix(Empty(size), run, k - 1);
      ValidNextIff(Exec(Empty(size), run[..k - 1]), run[k - 1]);
    }
  }

  /** Over whole runs: in every state the recorded names are distinct and fill a prefix, if and only if
      no access tears them. */
  lemma ValidIffNeverTears(size: nat, run: seq<Event>)
    requires size > 0
    ensures ValidThroughout(size, run) <==> NeverTears(size, run)
  {
    if ValidThroughout(size, run) {
      forall k | 0 <= k < |run| ensures !TearsAt(Exec(Empty(size), run[..k]), run[k]) {
        ExecPrefix(Empty(size), run, k);
        ValidNextIff(Exec(Empty(size), run[..k]), run[k]);
      }
    }
    if NeverTears(size, run) {
      forall k | 0 <= k <= |run| ensures Valid(Exec(Empty(size), run[..k])) {
        NeverTearsIsValid(size, run, k);
      }
    }
  }

  // ----- when PEEK is right

  /** Some OPEN of the name returned 1, and no CLOSE of it came after. */
  predicate OpenSince(t: Table, run: seq<Event>, name: string)
    requires Shaped(t)
  {
    run != [] &&
    var init := run[..|run| - 1];
    var e := run[|run| - 1];
    var before := Exec(t, init);
    if e.random < |before.names| && e.name == name && e.op == Close then false
    else if e.random < |before.names| && e.name == name && e.op == Open
            && Access(before, name, Open, e.random).result == 1 then true
    else OpenSince(t, init, name)
  }

  lemma NeverMisleadsPrefix(size: nat, run: seq<Event>)
    requires size > 0 && NeverMisleads(size, run) && run != []
    ensures NeverMisleads(size, run[..|run| - 1])
    ensures !MisleadsAt(Exec(Empty(size), run[..|run| - 1]), run[|run| - 1])
  {
    var init := run[..|run| - 1];
    forall k | 0 <= k < |init| ensures !MisleadsAt(Exec(Empty(size), init[..k]), init[k]) {
      assert init[..k] == run[..k];
    }
  }

  lemma {:induction false} OpenIffOpenSince(size: nat, run: seq<Event>, name: string)
    requires size > 0 && NeverMisleads(size, run)
    ensures Findable(Exec(Empty(size), run))
    ensures name in OpenNames(Exec(Empty(size), run)) <==> OpenSince(Empty(size), run, name)
  {
    if run != [] {
      var init := run[..|run| - 1];
      var e := run[|run| - 1];
      NeverMisleadsPrefix(size, run);
      OpenIffOpenSince(size, init, name);
      if e.random < size {
        AccessRefinesSet(Exec(Empty(size), init), e.name, e.op, e.random);
      }
    }
  }

  /** PEEK returns 1 exactly when an OPEN of the name returned 1 and no CLOSE of it came since. */
  ghost predicate PeekIsRight(size: nat, run: seq<Event>, name: string, random: nat)
    requires random < size
  {
    Access(Exec(Empty(size), run), name, Peek, random).result == 1 <==> OpenSince(Empty(size), run, name)
  }

  ghost predicate PeekTells(size: nat, run: seq<Event>)
    requires size > 0
  {
    forall name, random :: 0 <= random < size ==> PeekIsRight(size, run, name, random)
  }

  /** After any accesses that do not mislead, whatever the random numbers, PEEK is right about every
      name. Accesses with names that are not empty never mislead. */
  lemma PeekTellsOpen(size: nat, run: seq<Event>)
    requires size > 0 && NeverMisleads(size, run)
    ensures PeekTells(size, run)
  {
    var t := Exec(Empty(size), run);
    forall name, random | 0 <= random < size ensures PeekIsRight(size, run, name, random) {
      OpenIffOpenSince(size, run, name);
      CellOfOpenName(t, name, random);
      if Cell(t, name, random).Some? {
        CellOfName(t, name, Peek, random);
      }
    }
  }

  lemma FindIs(names: seq<string>, name: string, i: nat, c: nat)
    requires i <= c < |names| && (names[c] == name || names[c] == "")
    requires forall j :: i <= j < c ==> names[j] != name && names[j] != ""
    ensures Find(names, name, i) == c
  {
  }

  /** What an OPEN of the empty name does to PEEK: a name that is nowhere recorded seems open. */
  lemma OpenEmptyMisleads(t: Table, random: nat)
    requires Findable(t) && random < |t.names| && Misleads(t, "", Open, random)
    ensures
      var t' := Access(t, "", Open, random).table;
      var x := FreshName(t.names);
      Shaped(t') && |t'.names| == |t.names| && x !in OpenNames(t) && Access(t', x, Peek, 0).result == 1
  {
    ClosedIffFound(t.present, random);
    EmptyNameCell(t, random);
    CellOfName(t, "", Open, random);
    var c := Cell(t, "", random).value;
    var t' := Access(t, "", Open, random).table;
    var x := FreshName(t.names);
    assert forall j :: 0 <= j < |t.names| ==> t.names[j] in t.names;
    assert t'.names[c] == "" && forall j :: 0 <= j < c ==> t'.names[j] == t.names[j];
    FindIs(t'.names, x, 0, c);
  }

  /** What a PEEK or CLOSE of it does: the entry `i`, which is open, seems closed. */
  lemma HidingMisleads(t: Table, op: Op, random: nat, i: nat)
    requires Findable(t) && random < |t.names| && op != Open && "" !in t.names
    requires FirstClosed(t.present, random, 0).Some? && FirstClosed(t.present, random, 0).value < i < |t.present| && t.present[i]
    ensures
      var t' := Access(t, "", op, random).table;
      && Shaped(t') && |t'.names| == |t.names|
      && t.names[i] != "" && t.names[i] in OpenNames(t) && Access(t', t.names[i], Peek, 0).result == 0
  {
    EmptyNameCell(t, random);
    CellOfName(t, "", op, random);
    var c := Cell(t, "", random).value;
    var t' := Access(t, "", op, random).table;
    assert t'.names[c] == "" && forall j :: 0 <= j < c ==> t'.names[j] == t.names[j];
    FindIs(t'.names, t.names[i], 0, c);
  }

  lemma OtherNamesSince(size: nat, init: seq<Event>, e: Event, name: string)
    requires size > 0 && e.name != name
    ensures OpenSince(Empty(size), init + [e], name) == OpenSince(Empty(size), init, name)
  {
    assert (init + [e])[..|init|] == init;
  }

  lemma MisleadingIsWrong(size: nat, init: seq<Event>, e: Event)
    requires size > 0 && NeverMisleads(size, init) && MisleadsAt(Exec(Empty(size), init), e)
    ensures !PeekTells(size, init + [e])
  {
    var t := Exec(Empty(size), init);
    assert (init + [e])[..|init|] == init;
    assert Exec(Empty(size), init + [e]) == Next(t, e);
    OpenIffOpenSince(size, init, "");
    var x: string;
    if e.op == Open {
      OpenEmptyMisleads(t, e.random);
      x := FreshName(t.names);
    } else {
      var i :| FirstClosed(t.present, e.random, 0).value < i < |t.present| && t.present[i];
      HidingMisleads(t, e.op, e.random, i);
      x := t.names[i];
    }
    OpenIffOpenSince(size, init, x);
    OtherNamesSince(size, init, e, x);
    assert !PeekIsRight(size, init + [e], x, 0);
  }

  lemma {:induction false} AlwaysRightNeverMisleads(size: nat, run: seq<Event>, k: nat)
    requires size > 0 && k <= |run| && forall j :: 0 <= j <= |run| ==> PeekTells(size, run[..j])
    ensures NeverMisleads(size, run[..k])
  {
    if k > 0 {
      var init := run[..k - 1];
      AlwaysRightNeverMisleads(size, run, k - 1);
      assert run[..k] == init + [run[k - 1]];
      if MisleadsAt(Exec(Empty(size), init), run[k - 1]) {
        MisleadingIsWrong(size, init, run[k - 1]);
      }
      forall j | 0 <= j < k ensures !MisleadsAt(Exec(Empty(size), run[..k][..j]), run[..k][j]) {
        if j < k - 1 {
          assert run[..k][..j] == init[..j] && run[..k][j] == init[j];
        } else {
          assert run[..k][..j] == init;
        }
      }
    }
  }

  /** Over whole runs: PEEK is right about every name in every state, if and only if no access
      misleads. */
  lemma PeekAlwaysTellsIff(size: nat, run: seq<Event>)
    requires size > 0
    ensures (forall k :: 0 <= k <= |run| ==> PeekTells(size, run[..k])) <==> NeverMisleads(size, run)
  {
    if forall k :: 0 <= k <= |run| ==> PeekTells(size, run[..k]) {
      AlwaysRightNeverMisleads(size, run, |run|);
      assert run[..|run|] == run;
    }
    if NeverMisleads(size, run) {
      forall k | 0 <= k <= |run| ensures PeekTells(size, run[..k]) {
        forall j | 0 <= j < k ensures !MisleadsAt(Exec(Empty(size), run[..k][..j]), run[..k][j]) {
          assert run[..k][..j] == run[..j];
        }
        PeekTellsOpen(size, run[..k]);
      }
    }
  }

  // ----- the empty name

  /** After an OPEN of the empty name, PEEK claims a name to be open that was never opened. */
  lemma EmptyNameMisleadsPeek()
    ensures
      var t := Access(Empty(1), "", Open, 0).table;
      Shaped(t) && |t.names| == 1 && Access(t, "f", Peek, 0).result == 1
  {
    var t := Access(Empty(1), "", Open, 0).table;
    assert t.names == [""] && t.present == [true];
    assert Find(t.names, "f", 0) == 0;
  }

  lemma OneAndTwo() returns (run: seq<Event>)
    ensures Exec(Empty(2), run) == Table(["a", "b"], [false, true])
    ensures |run| == 3 && forall i :: 0 <= i < |run| ==> run[i].name != ""
    ensures OpenSince(Empty(2), run, "b")
  {
    run := [Event("a", Open, 0), Event("b", Open, 0), Event("a", Close, 0)];
    var t := Empty(2);
    assert t == Table(["", ""], [false, false]);
    assert run[..0] == [] && run[..1][..0] == [] && run[..2][..1] == run[..1] && run[..3] == run;
    assert Exec(t, run[..1]) == Table(["a", ""], [true, false]);
    FindIs(["a", ""], "b", 0, 1);
    assert Exec(t, run[..2]) == Table(["a", "b"], [true, true]);
    FindIs(["a", "b"], "a", 0, 0);
    assert OpenSince(t, run[..2], "b");
  }

  /** A CLOSE of the empty name, which is never opened, hides a name that is open. */
  lemma CloseOfEmptyNameHidesOpen() returns (run: seq<Event>)
    ensures forall i :: 0 <= i < |run| ==> run[i].name != "" || run[i].op == Close
    ensures OpenSince(Empty(2), run, "b") && Access(Exec(Empty(2), run), "b", Peek, 0).result == 0
  {
    run := OneAndTwo();
    var t := Exec(Empty(2), run);
    var e := Event("", Close, 0);
    assert FirstClosed(t.present, 0, 0) == Some(0);
    HidingMisleads(t, Close, 0, 1);
    OtherNamesSince(2, run, e, "b");
    assert (run + [e])[..|run|] == run;
    run := run + [e];
  }
}
