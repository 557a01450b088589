/**
 * The identity of the running process (src/EventBus/Process.js): the network
 * interface it reports, its composite id, the pm2 instance list and the
 * primary-instance test derived from it. Environment variables, the clock, the
 * random generator, `os.networkInterfaces()` and the output of `pm2 id` are
 * parameters.
 */
module Process {
  import opened Values
  import opened Numerals

  /** One entry of `os.networkInterfaces()[name]` (netmask, cidr and scopeid are not modelled). */
  datatype Interface = Interface(family: string, internal: bool, mac: string, address: string)

  /** `os.networkInterfaces()`: interface names in key order, each with its address entries. */
  type InterfaceTable = seq<(string, seq<Interface>)>

  predicate StartsWith(s: string, prefix: string) {
    |prefix| <= |s| && s[..|prefix|] == prefix
  }

  /** The four tests an entry must pass to be selected. */
  predicate Usable(it: Interface) {
    && it.family == "IPv4"
    && !it.internal
    && !StartsWith(it.mac, "00:00")
    && !StartsWith(it.address, "127.")
  }

  /** All entries of the table in the order the selection visits them. */
  function Entries(table: InterfaceTable): seq<Interface> {
    if table == [] then [] else Entries(table[..|table| - 1]) + table[|table| - 1].1
  }

  /** The first usable entry of a sequence, if any. */
  function FirstUsable(xs: seq<Interface>): (r: Option<Interface>)
    ensures r.Some? ==> r.value in xs && Usable(r.value)
  {
    if xs == [] then None
    else if Usable(xs[0]) then Some(xs[0])
    else FirstUsable(xs[1..])
  }

  lemma {:induction false} FirstUsableAppend(a: seq<Interface>, b: seq<Interface>)
    ensures FirstUsable(a + b) == if FirstUsable(a).Some? then FirstUsable(a) else FirstUsable(b)
  {
    if a != [] {
      assert (a + b)[0] == a[0];
      assert (a + b)[1..] == a[1..] + b;
      FirstUsableAppend(a[1..], b);
    } else {
      assert a + b == b;
    }
  }

  /**
   * FirstUsable returns the earliest usable entry: `Some(xs[k])` where every
   * entry before `k` is unusable, or `None` when no entry is usable.
   */
  lemma {:induction false} FirstUsableIsFirst(xs: seq<Interface>)
    ensures FirstUsable(xs).None? <==> forall i :: 0 <= i < |xs| ==> !Usable(xs[i])
    ensures FirstUsable(xs).Some? ==>
      exists k :: 0 <= k < |xs| && xs[k] == FirstUsable(xs).value && Usable(xs[k]) &&
        forall i :: 0 <= i < k ==> !Usable(xs[i])
  {
    if xs != [] && !Usable(xs[0]) {
      FirstUsableIsFirst(xs[1..]);
      if FirstUsable(xs).Some? {
        var k :| 0 <= k < |xs[1..]| && xs[1..][k] == FirstUsable(xs).value && Usable(xs[1..][k]) &&
          forall i :: 0 <= i < k ==> !Usable(xs[1..][i]);
        assert xs[k + 1] == FirstUsable(xs).value;
        forall i | 0 <= i < k + 1 ensures !Usable(xs[i]) {
          if i > 0 { assert xs[i] == xs[1..][i - 1]; }
        }
      } else {
        forall i | 0 <= i < |xs| ensures !Usable(xs[i]) {
          if i > 0 { assert xs[i] == xs[1..][i - 1]; }
        }
      }
    } else if xs != [] {
      assert xs[0] == FirstUsable(xs).value;
    }
  }

  /**
   * `#_interface`: visits the names in key order and, within a name, its IPv4
   * non-internal entries, returning the first whose mac does not start with
   * `00:00` and whose address does not start with `127.`; `None` stands for `{}`.
   */
  method SelectInterface(table: InterfaceTable) returns (r: Option<Interface>)
    ensures r == FirstUsable(Entries(table))
    ensures r.Some? ==> Usable(r.value)
  {
    var i := 0;
    while i < |table|
      invariant 0 <= i <= |table|
      invariant FirstUsable(Entries(table[..i])) == None
    {
      var found := table[i].1;
      var j := 0;
      while j < |found|
        invariant 0 <= j <= |found|
        invariant FirstUsable(found[..j]) == None
      {
        var it := found[j];
        if it.family == "IPv4" && !it.internal {
          if !StartsWith(it.mac, "00:00") && !StartsWith(it.address, "127.") {
            assert Usable(it);
            FirstUsableAppend(found[..j], [it]);
            assert found[..j + 1] == found[..j] + [it];
            assert FirstUsable([it]) == Some(it);
            FirstUsableAppend(found[..j + 1], found[j + 1..]);
            assert found[..j + 1] + found[j + 1..] == found;
            assert FirstUsable(found) == Some(it);
            EntriesStep(table, i);
            FirstUsableAppend(Entries(table[..i]), found);
            EntriesPrefix(table, i + 1);
            return Some(it);
          }
        }
        FirstUsableAppend(found[..j], [it]);
        assert found[..j + 1] == found[..j] + [it];
        j := j + 1;
      }
      assert found[..j] == found;
      EntriesStep(table, i);
      FirstUsableAppend(Entries(table[..i]), found);
      i := i + 1;
    }
    assert table[..i] == table;
    return None;
  }

  lemma EntriesStep(table: InterfaceTable, i: nat)
    requires i < |table|
    ensures Entries(table[..i + 1]) == Entries(table[..i]) + table[i].1
  {
    assert table[..i + 1][..i] == table[..i];
  }

  /** The first usable entry of a prefix of the table is the first usable entry of the table. */
  lemma EntriesPrefix(table: InterfaceTable, n: nat)
    requires n <= |table|
    requires FirstUsable(Entries(table[..n])).Some?
    ensures FirstUsable(Entries(table)) == FirstUsable(Entries(table[..n]))
    decreases |table| - n
  {
    if n < |table| {
      EntriesStep(table, n);
      FirstUsableAppend(Entries(table[..n]), table[n].1);
      EntriesPrefix(table, n + 1);
    } else {
      assert table[..n] == table;
    }
  }

  // ---------------------------------------------------------------------------
  // The composite id
  // ---------------------------------------------------------------------------

  /** `Array.prototype.toString`: the parts joined by commas. */
  function CommaJoin(parts: seq<string>): string {
    if parts == [] then ""
    else if |parts| == 1 then parts[0]
    else CommaJoin(parts[..|parts| - 1]) + "," + parts[|parts| - 1]
  }

  /** `s.replaceAll(/[^0-9a-f]/g, '')`: every character outside `[0-9a-f]` removed. */
  function KeepHex(s: string): (r: string)
    ensures AllHex(r) && |r| <= |s|
  {
    if s == [] then ""
    else if IsHexDigit(s[|s| - 1]) then KeepHex(s[..|s| - 1]) + [s[|s| - 1]]
    else KeepHex(s[..|s| - 1])
  }

  /** Removing the non-hex characters distributes over concatenation. */
  lemma {:induction false} KeepHexConcat(a: string, b: string)
    ensures KeepHex(a + b) == KeepHex(a) + KeepHex(b)
    decreases |b|
  {
    if b == [] {
      assert a + b == a;
    } else {
      assert (a + b)[..|a + b| - 1] == a + b[..|b| - 1];
      KeepHexConcat(a, b[..|b| - 1]);
    }
  }

  /** A string of hex digits is left as it is, so the sanitisation is idempotent. */
  lemma {:induction false} KeepHexOfHex(s: string)
    requires AllHex(s)
    ensures KeepHex(s) == s
  {
    if s != [] {
      KeepHexOfHex(s[..|s| - 1]);
    }
  }

  /** Every hex digit of the input survives, in order: the result is exactly the hex subsequence. */
  lemma {:induction false} KeepHexCounts(s: string, c: char)
    requires IsHexDigit(c)
    ensures multiset(KeepHex(s))[c] == multiset(s)[c]
  {
    if s != [] {
      KeepHexCounts(s[..|s| - 1], c);
      assert s == s[..|s| - 1] + [s[|s| - 1]];
    }
  }

  /** How an absent field of `{}` renders inside `Array.prototype.toString`. */
  function OrEmpty(field: Option<string>): string {
    field.GetOr("")
  }

  /**
   * The static `#id`: `[mac, address, process_name, process_id, uid]` joined by
   * commas, with every character outside `[0-9a-f]` removed. `uid` is the
   * random suffix; an interface of `{}` contributes empty mac and address.
   */
  function ProcessId(iface: Option<Interface>, processName: string, processId: int, uid: string): (id: string)
    ensures AllHex(id)
  {
    var mac := if iface.Some? then Some(iface.value.mac) else None;
    var address := if iface.Some? then Some(iface.value.address) else None;
    KeepHex(CommaJoin([OrEmpty(mac), OrEmpty(address), processName, Decimal(processId), uid]))
  }

  /** The hex digits of each part, concatenated. */
  function HexOfParts(parts: seq<string>): string {
    if parts == [] then "" else HexOfParts(parts[..|parts| - 1]) + KeepHex(parts[|parts| - 1])
  }

  /** Sanitising a comma-joined list keeps the hex digits of every part, in order: the commas vanish. */
  lemma {:induction false} KeepHexCommaJoin(parts: seq<string>)
    ensures KeepHex(CommaJoin(parts)) == HexOfParts(parts)
  {
    if |parts| == 1 {
      assert parts[..0] == [];
    } else if |parts| > 1 {
      var init, last := parts[..|parts| - 1], parts[|parts| - 1];
      KeepHexCommaJoin(init);
      KeepHexConcat(CommaJoin(init) + ",", last);
      KeepHexConcat(CommaJoin(init), ",");
      assert KeepHex(",") == "" by { assert ","[..0] == ""; }
    }
  }

  /**
   * The id is the hex digits of mac, address, name and pid followed by the
   * random suffix, which (being hex already) is kept whole.
   */
  lemma ProcessIdParts(iface: Interface, processName: string, processId: int, uid: string)
    requires AllHex(uid)
    ensures ProcessId(Some(iface), processName, processId, uid) ==
      HexOfParts([iface.mac, iface.address, processName, Decimal(processId)]) + uid
  {
    var parts := [iface.mac, iface.address, processName, Decimal(processId), uid];
    KeepHexCommaJoin(parts);
    assert parts[..4] == [iface.mac, iface.address, processName, Decimal(processId)];
    KeepHexOfHex(uid);
  }

  // ---------------------------------------------------------------------------
  // Static initialisation of the class
  // ---------------------------------------------------------------------------

  /** The static fields of `Process`, each set by its initialiser when the class is evaluated. */
  datatype StaticField =
    | UnrealIdField | ProcessIdField | ProcessNameField | IdField
    | InterfaceField | InterfaceFnField | InstancesIdsFnField | MasterProcessIdField

  /** The fields an initialiser reads while it runs, through the getters it calls. */
  function InitReads(f: StaticField): seq<StaticField> {
    match f
    case ProcessIdField => [UnrealIdField]
    case IdField => [InterfaceField, ProcessNameField, ProcessIdField]
    case InterfaceField => [InterfaceFnField]
    case MasterProcessIdField => [InstancesIdsFnField, UnrealIdField, ProcessIdField, ProcessNameField]
    case _ => []
  }

  /** Every field the initialiser of `f` reads is among those already set. */
  predicate ReadsSet(f: StaticField, done: seq<StaticField>) {
    forall g :: g in InitReads(f) ==> g in done
  }

  /**
   * Runs the initialisers from position `i` on, those before it being set:
   * the first one that reads a private field not yet set throws a
   * `TypeError`, and is returned; `None` when the rest of the class
   * initialises.
   */
  function FirstBadRead(order: seq<StaticField>, i: nat): (r: Option<StaticField>)
    requires i <= |order|
    ensures r.Some? ==> exists k :: i <= k < |order| && order[k] == r.value && !ReadsSet(order[k], order[..k])
    ensures r.None? ==> forall k :: i <= k < |order| ==> ReadsSet(order[k], order[..k])
    decreases |order| - i
  {
    if i == |order| then None
    else if ReadsSet(order[i], order[..i]) then FirstBadRead(order, i + 1)
    else Some(order[i])
  }

  /** The declaration order of the static fields in the class body. */
  const DECLARED: seq<StaticField> :=
    [UnrealIdField, ProcessIdField, ProcessNameField, IdField,
     InterfaceField, InterfaceFnField, InstancesIdsFnField, MasterProcessIdField]

  /** As declared, the initialiser of `#id` reads `#interface` before it is set: loading the class throws. */
  lemma DeclaredOrderThrows()
    ensures FirstBadRead(DECLARED, 0) == Some(IdField)
  {
    var s := DECLARED;
    assert ReadsSet(s[0], s[..0]);
    assert ReadsSet(s[1], s[..1]);
    assert ReadsSet(s[2], s[..2]);
    assert !ReadsSet(s[3], s[..3]) by { assert InterfaceField !in s[..3]; }
  }

  /** The order the rest of this model assumes: the interface is selected before the id is built. */
  const REORDERED: seq<StaticField> :=
    [UnrealIdField, ProcessIdField, ProcessNameField, InterfaceFnField,
     InterfaceField, IdField, InstancesIdsFnField, MasterProcessIdField]

  /** With `#_interface` and `#interface` moved before `#id`, every initialiser reads only fields already set. */
  lemma ReorderedInitialises()
    ensures FirstBadRead(REORDERED, 0).None?
    ensures forall f :: f in DECLARED <==> f in REORDERED
  {
    var s := REORDERED;
    assert ReadsSet(s[0], s[..0]);
    assert ReadsSet(s[1], s[..1]) by { assert s[..1][0] == UnrealIdField; }
    assert ReadsSet(s[2], s[..2]);
    assert ReadsSet(s[3], s[..3]);
    assert ReadsSet(s[4], s[..4]) by { assert s[..4][3] == InterfaceFnField; }
    assert ReadsSet(s[5], s[..5]) by {
      assert s[..5][4] == InterfaceField && s[..5][2] == ProcessNameField && s[..5][1] == ProcessIdField;
    }
    assert ReadsSet(s[6], s[..6]);
    assert ReadsSet(s[7], s[..7]) by {
      assert s[..7][6] == InstancesIdsFnField && s[..7][0] == UnrealIdField;
      assert s[..7][2] == ProcessNameField && s[..7][1] == ProcessIdField;
    }
  }

  // ---------------------------------------------------------------------------
  // pm2 instance ids and the primary instance
  // ---------------------------------------------------------------------------

  /** What `execSync('pm2 id "<name>"')` and the parse of its output produced. */
  datatype Pm2Output =
    | CommandFailed          // execSync or the parse threw
    | EmptyOutput            // the command printed nothing
    | Listed(ids: seq<int>)  // the parsed array of ids

  /** `Array.from(new Set(s))`: the distinct elements in first-occurrence order. */
  function Distinct(s: seq<int>): (d: seq<int>)
    ensures forall x :: x in d <==> x in s
    ensures forall i, j :: 0 <= i < j < |d| ==> d[i] != d[j]
  {
    if s == [] then []
    else
      var p := Distinct(s[..|s| - 1]);
      assert forall x :: x in s <==> x in s[..|s| - 1] || x == s[|s| - 1] by {
        assert s == s[..|s| - 1] + [s[|s| - 1]];
      }
      if s[|s| - 1] in p then p else p + [s[|s| - 1]]
  }

  /** The index of the first occurrence of `x` in `s`. */
  function FirstIndex(s: seq<int>, x: int): (k: nat)
    requires x in s
    ensures k < |s| && s[k] == x && forall i :: 0 <= i < k ==> s[i] != x
  {
    if s[0] == x then 0 else 1 + FirstIndex(s[1..], x)
  }

  lemma FirstIndexPrefix(s: seq<int>, n: nat, x: int)
    requires n <= |s| && x in s[..n]
    ensures x in s && FirstIndex(s, x) == FirstIndex(s[..n], x)
  {
    var k := FirstIndex(s[..n], x);
    assert s[k] == x;
    var k' := FirstIndex(s, x);
    assert k' <= k;
    assert s[..n][k'] == x;
  }

  /** An element that does not occur before the end first occurs at the end. */
  lemma FirstIndexOfNew(s: seq<int>)
    requires s != [] && s[|s| - 1] !in s[..|s| - 1]
    ensures FirstIndex(s, s[|s| - 1]) == |s| - 1
  {
  }

  /** Distinct keeps first-occurrence order: earlier in the result means first seen earlier in the input. */
  lemma {:induction false} DistinctOrder(s: seq<int>, i: nat, j: nat)
    requires i < j < |Distinct(s)|
    ensures FirstIndex(s, Distinct(s)[i]) < FirstIndex(s, Distinct(s)[j])
  {
    var init := s[..|s| - 1];
    var p := Distinct(init);
    var d := Distinct(s);
    var last := s[|s| - 1];
    assert d == if last in p then p else p + [last];
    assert d[i] == p[i] && p[i] in init;
    FirstIndexPrefix(s, |s| - 1, p[i]);
    if j < |p| {
      assert d[j] == p[j] && p[j] in init;
      DistinctOrder(init, i, j);
      FirstIndexPrefix(s, |s| - 1, p[j]);
    } else {
      assert d[j] == last && last !in init;
      FirstIndexOfNew(s);
    }
  }

  function Reverse(s: seq<int>): (r: seq<int>)
    ensures |r| == |s| && forall i :: 0 <= i < |s| ==> r[i] == s[|s| - 1 - i]
  {
    if s == [] then [] else [s[|s| - 1]] + Reverse(s[..|s| - 1])
  }

  /** `filter(it => it * 1 >= 0)`: each element ≥ 0 kept as often as it occurs, the others dropped. */
  function KeepNonNegative(s: seq<int>): (r: seq<int>)
    ensures forall x :: x in r <==> x in s && x >= 0
    ensures forall x :: multiset(r)[x] == if x >= 0 then multiset(s)[x] else 0
  {
    if s == [] then []
    else
      assert s == [s[0]] + s[1..];
      assert forall x :: x in s <==> x == s[0] || x in s[1..];
      (if s[0] >= 0 then [s[0]] else []) + KeepNonNegative(s[1..])
  }

  /** The filter keeps the input's order: any two results occur, in the same order, in the input. */
  lemma {:induction false} KeepNonNegativeOrder(s: seq<int>, i: nat, j: nat)
    requires i < j < |KeepNonNegative(s)|
    ensures exists a, b :: 0 <= a < b < |s| && s[a] == KeepNonNegative(s)[i] && s[b] == KeepNonNegative(s)[j]
  {
    var r := KeepNonNegative(s);
    var t := KeepNonNegative(s[1..]);
    if s[0] >= 0 && i == 0 {
      assert r[j] == t[j - 1] && t[j - 1] in s[1..];
      var b :| 0 <= b < |s[1..]| && s[1..][b] == t[j - 1];
      assert s[0] == r[0] && s[b + 1] == r[j];
    } else {
      var d := if s[0] >= 0 then 1 else 0;
      var i', j' := i - d, j - d;
      assert r[i] == t[i'] && r[j] == t[j'];
      KeepNonNegativeOrder(s[1..], i', j');
      var a, b :| 0 <= a < b < |s[1..]| && s[1..][a] == t[i'] && s[1..][b] == t[j'];
      assert s[a + 1] == r[i] && s[b + 1] == r[j];
    }
  }

  lemma {:induction false} KeepNonNegativeDistinct(s: seq<int>)
    requires forall i, j :: 0 <= i < j < |s| ==> s[i] != s[j]
    ensures forall i, j :: 0 <= i < j < |KeepNonNegative(s)| ==> KeepNonNegative(s)[i] != KeepNonNegative(s)[j]
  {
    if s != [] {
      KeepNonNegativeDistinct(s[1..]);
      assert s[0] !in s[1..];
    }
  }

  /**
   * `getInstansesIds`: `[-1]` when not under pm2 (`process_id == unrealId`) or
   * when the command fails; otherwise the listed ids (an empty output reads as
   * `[-1]`), deduplicated, reversed and restricted to the non-negative ones.
   */
  method GetInstancesIds(processId: int, unrealId: int, output: Pm2Output) returns (ids: seq<int>)
    ensures processId == unrealId || output.CommandFailed? ==> ids == [-1]
    ensures processId != unrealId && output.EmptyOutput? ==> ids == []
    ensures processId != unrealId && output.Listed? ==>
      ids == KeepNonNegative(Reverse(Distinct(output.ids)))
  {
    if processId == unrealId {
      return [-1];
    }
    if output.CommandFailed? {
      return [-1];
    }
    var rows := if output.EmptyOutput? then [-1] else output.ids;
    if output.EmptyOutput? {
      EmptyOutputNeverPrimary(processId, unrealId);
    }
    ids := Distinct(rows);
    ids := Reverse(ids);
    ids := KeepNonNegative(ids);
  }

  /**
   * Apart from the `[-1]` fallbacks, the ids are pairwise distinct, all
   * non-negative, exactly the non-negative listed ids, and in reverse order of
   * first occurrence.
   */
  lemma InstanceIdsShape(listed: seq<int>)
    ensures var ids := KeepNonNegative(Reverse(Distinct(listed)));
      && (forall x :: x in ids <==> x in listed && x >= 0)
      && (forall i, j :: 0 <= i < j < |ids| ==> ids[i] != ids[j])
  {
    var d := Distinct(listed);
    ReversePreserves(d);
    KeepNonNegativeDistinct(Reverse(d));
  }

  lemma ReversePreserves(d: seq<int>)
    requires forall i, j :: 0 <= i < j < |d| ==> d[i] != d[j]
    ensures forall x :: x in Reverse(d) <==> x in d
    ensures forall i, j :: 0 <= i < j < |Reverse(d)| ==> Reverse(d)[i] != Reverse(d)[j]
  {
    var r := Reverse(d);
    forall i, j | 0 <= i < j < |r| ensures r[i] != r[j] {
      assert r[i] == d[|d| - 1 - i] && r[j] == d[|d| - 1 - j];
    }
    forall x | x in d ensures x in r {
      var k :| 0 <= k < |d| && d[k] == x;
      assert r[|d| - 1 - k] == x;
    }
  }

  /** After dedupe and reversal, later first occurrences come first. */
  lemma ReverseDistinctOrder(listed: seq<int>, i: nat, j: nat)
    requires i < j < |Distinct(listed)|
    ensures var r := Reverse(Distinct(listed));
      r[i] in listed && r[j] in listed && FirstIndex(listed, r[i]) > FirstIndex(listed, r[j])
  {
    var d := Distinct(listed);
    var r := Reverse(d);
    var a, b := |d| - 1 - j, |d| - 1 - i;
    assert r[i] == d[b] && r[j] == d[a];
    DistinctOrder(listed, a, b);
  }

  /** The instance ids come in reverse order of their first occurrence in the listing. */
  lemma ReversedFirstOccurrence(listed: seq<int>, i: nat, j: nat)
    requires i < j < |KeepNonNegative(Reverse(Distinct(listed)))|
    ensures var ids := KeepNonNegative(Reverse(Distinct(listed)));
      ids[i] in listed && ids[j] in listed && FirstIndex(listed, ids[i]) > FirstIndex(listed, ids[j])
  {
    var r := Reverse(Distinct(listed));
    var ids := KeepNonNegative(r);
    KeepNonNegativeOrder(r, i, j);
    var a, b :| 0 <= a < b < |r| && r[a] == ids[i] && r[b] == ids[j];
    ReverseDistinctOrder(listed, a, b);
  }


  /** `Math.min(...ids)`; `None` is the `Infinity` that `Math.min()` gives for an empty list. */
  function MinOf(ids: seq<int>): (m: Option<int>)
    ensures m.None? <==> ids == []
    ensures m.Some? ==> m.value in ids && forall x :: x in ids ==> m.value <= x
  {
    if ids == [] then None
    else
      var rest := MinOf(ids[1..]);
      assert forall x :: x in ids ==> x == ids[0] || x in ids[1..];
      if rest.Some? && rest.value < ids[0] then rest else Some(ids[0])
  }

  /** `isPm2Primary`: the smallest instance id is ours, or we are not running under pm2. */
  predicate IsPm2Primary(masterProcessId: Option<int>, processId: int, unrealId: int) {
    masterProcessId == Some(processId) || processId == unrealId
  }

  /** Outside pm2 the process always counts as the pm2 primary (the master id is then -1). */
  lemma OutsidePm2IsPrimary(unrealId: int)
    ensures MinOf([-1]) == Some(-1)
    ensures IsPm2Primary(MinOf([-1]), unrealId, unrealId)
  {
  }

  /**
   * Under pm2, with our own id among the listed ids, we are primary exactly when
   * no listed non-negative id is smaller than ours.
   */
  lemma Pm2PrimaryIsLowest(listed: seq<int>, processId: int, unrealId: int)
    requires processId != unrealId && processId >= 0 && processId in listed
    ensures IsPm2Primary(MinOf(KeepNonNegative(Reverse(Distinct(listed)))), processId, unrealId) <==>
      forall x :: x in listed && x >= 0 ==> processId <= x
  {
    InstanceIdsShape(listed);
  }

  /**
   * The edge case of an empty `pm2 id` output: the substituted `[-1]` is filtered
   * out, the list is empty, its minimum is `Infinity`, and no process counts as
   * the pm2 primary.
   */
  lemma EmptyOutputNeverPrimary(processId: int, unrealId: int)
    requires processId != unrealId
    ensures KeepNonNegative(Reverse(Distinct([-1]))) == []
    ensures MinOf(KeepNonNegative(Reverse(Distinct([-1])))).None?
    ensures !IsPm2Primary(MinOf(KeepNonNegative(Reverse(Distinct([-1])))), processId, unrealId)
  {
    assert Distinct([-1]) == [-1] by { assert [-1][..0] == []; }
  }
}
