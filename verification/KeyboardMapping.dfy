/** Checking the rows of a keyboard mapping and turning them into bindings. */
module KeyboardMapping {
  import opened Options

  // A missing property is None; an action that is missing is the value undefined.
  datatype Row = Row(key: Option<string>, action: Option<string>, target: Option<string>, group: Option<string>)

  datatype Conflict = Conflict(key: string, targets: seq<string>)

  // Why the rows are rejected.
  datatype Reason = KeyMissing(target: string) | KeysShared(conflicts: seq<Conflict>) | TooMany(action: string, targets: seq<string>)

  datatype Verdict = Fine | Rejected(reason: Reason)

  // What building bindings may throw: the rejection, or the TypeError of JavaScript itself.
  datatype Thrown = Invalid(reason: Reason) | TypeError

  // The properties that every plain JavaScript object inherits from Object.prototype.
  const INHERITED: set<string> := {
    "constructor", "hasOwnProperty", "isPrototypeOf", "propertyIsEnumerable", "toLocaleString", "toString", "valueOf",
    "__defineGetter__", "__defineSetter__", "__lookupGetter__", "__lookupSetter__", "__proto__"}

  predicate IsInherited(name: string) {
    name in INHERITED
  }

  // The one inherited property that swallows an assignment of a string.
  const PROTO := "__proto__"

  /** `a || b` on strings that may be missing. */
  function Or(a: Option<string>, b: string): string {
    if a.Some? && a.value != "" then a.value else b
  }

  /** formatMappingTarget. */
  function FormatMappingTarget(row: Row): string {
    Or(row.group, "其他") + " / " + Or(row.target, Or(row.action, "未命名"))
  }

  /** What String.prototype.trim takes for white space. */
  predicate IsBlank(c: char) {
    var u := c as int;
    9 <= u <= 13 || u in {0x20, 0xA0, 0x1680, 0x2028, 0x2029, 0x202F, 0x205F, 0x3000, 0xFEFF} || 0x2000 <= u <= 0x200A
  }

  function Trim(s: string): string {
    if s != "" && IsBlank(s[0]) then Trim(s[1..])
    else if s != "" && IsBlank(s[|s| - 1]) then Trim(s[..|s| - 1])
    else s
  }

  function Lower(s: string): string {
    seq(|s|, i requires 0 <= i < |s| => if 'A' <= s[i] <= 'Z' then (s[i] as int + 32) as char else s[i])
  }

  /** (row.key || '').trim().toLowerCase(). */
  function NormalKey(row: Row): string {
    Lower(Trim(Or(row.key, "")))
  }

  /** The property name an action turns into. */
  function ActionName(row: Row): string {
    if row.action.Some? then row.action.value else "undefined"
  }

  function Limit(action: string): nat {
    if "MOVE_" <= action then 2 else 1
  }

  // ---------- what the rows say, one row after the other ----------

  /** The targets of the rows that go by some name, in order. */
  function TargetsOf(rows: seq<Row>, nameOf: Row -> string, name: string): seq<string> {
    if rows == [] then []
    else
      var last := rows[|rows| - 1];
      TargetsOf(rows[..|rows| - 1], nameOf, name) + if nameOf(last) == name then [FormatMappingTarget(last)] else []
  }

  function TargetsOfKey(rows: seq<Row>, key: string): seq<string> {
    TargetsOf(rows, NormalKey, key)
  }

  function TargetsOfAction(rows: seq<Row>, action: string): seq<string> {
    TargetsOf(rows, ActionName, action)
  }

  /** One more row adds its target under its own name only. */
  lemma OneMoreRow(rows: seq<Row>, i: nat, nameOf: Row -> string, name: string)
    requires i < |rows|
    ensures TargetsOf(rows[..i + 1], nameOf, name) ==
      TargetsOf(rows[..i], nameOf, name) + if nameOf(rows[i]) == name then [FormatMappingTarget(rows[i])] else []
  {
    assert rows[..i + 1][..i] == rows[..i];
  }

  /** The keys in use, in the order of their first rows. */
  function KeysInUse(rows: seq<Row>): seq<string> {
    if rows == [] then []
    else
      var before := KeysInUse(rows[..|rows| - 1]);
      var key := NormalKey(rows[|rows| - 1]);
      if key == "" || key in before then before else before + [key]
  }

  /** The shared ones among some keys. */
  function SharedAmong(rows: seq<Row>, keys: seq<string>): seq<Conflict> {
    if keys == [] then []
    else
      var key := keys[|keys| - 1];
      var targets := TargetsOfKey(rows, key);
      SharedAmong(rows, keys[..|keys| - 1]) + if |targets| > 1 then [Conflict(key, targets)] else []
  }

  function ConflictsOf(rows: seq<Row>): seq<Conflict> {
    SharedAmong(rows, KeysInUse(rows))
  }

  function Owned(owners: map<string, seq<string>>, name: string): seq<string> {
    if name in owners then owners[name] else []
  }

  ghost predicate SameKeys(order: seq<string>, keyToTargets: map<string, seq<string>>) {
    forall key :: key in keyToTargets <==> key in order
  }

  ghost predicate SameTargets(rows: seq<Row>, keyToTargets: map<string, seq<string>>) {
    forall key | key != "" :: Owned(keyToTargets, key) == TargetsOfKey(rows, key)
  }

  lemma SameKeysOneMore(order: seq<string>, keyToTargets: map<string, seq<string>>, key: string, targets: seq<string>)
    requires SameKeys(order, keyToTargets)
    ensures SameKeys(if key in keyToTargets then order else order + [key], keyToTargets[key := targets])
    ensures key in keyToTargets <==> key in order
  {
  }

  lemma SameTargetsOneMore(rows: seq<Row>, i: nat, keyToTargets: map<string, seq<string>>)
    requires i < |rows| && SameTargets(rows[..i], keyToTargets)
    ensures var key := NormalKey(rows[i]);
      SameTargets(rows[..i + 1], if key == "" then keyToTargets
                                 else keyToTargets[key := Owned(keyToTargets, key) + [FormatMappingTarget(rows[i])]])
  {
    hide TargetsOf, FormatMappingTarget, NormalKey;
    var key := NormalKey(rows[i]);
    var later := if key == "" then keyToTargets
                 else keyToTargets[key := Owned(keyToTargets, key) + [FormatMappingTarget(rows[i])]];
    forall k | k != ""
      ensures Owned(later, k) == TargetsOfKey(rows[..i + 1], k)
    {
      OneMoreRow(rows, i, NormalKey, k);
      assert Owned(keyToTargets, k) == TargetsOfKey(rows[..i], k);
    }
  }

  lemma KeysInUseOneMore(rows: seq<Row>, i: nat)
    requires i < |rows|
    ensures var before, key := KeysInUse(rows[..i]), NormalKey(rows[i]);
      KeysInUse(rows[..i + 1]) == if key == "" || key in before then before else before + [key]
  {
    assert rows[..i + 1][..i] == rows[..i];
  }

  /** Make the list of a new name, then push the target on the name's list. */
  method PushTarget(table: map<string, seq<string>>, name: string, target: string) returns (later: map<string, seq<string>>)
    ensures later == table[name := Owned(table, name) + [target]]
  {
    later := table;
    if name !in later {
      later := later[name := []];
    }
    later := later[name := later[name] + [target]];
  }

  /** findDuplicateKeyConflicts. */
  method FindDuplicateKeyConflicts(rows: seq<Row>) returns (conflicts: seq<Conflict>)
    ensures conflicts == ConflictsOf(rows)
  {
    // A JavaScript Map: its keys in the order of insertion, and the value of each.
    var order: seq<string> := [];
    var keyToTargets: map<string, seq<string>> := map[];
    assert rows[..0] == [];
    assert SameKeys(order, keyToTargets);
    hide TargetsOf, FormatMappingTarget, NormalKey, SameKeys;
    for i := 0 to |rows|
      invariant order == KeysInUse(rows[..i])
      invariant SameKeys(order, keyToTargets) && SameTargets(rows[..i], keyToTargets)
    {
      KeysInUseOneMore(rows, i);
      SameTargetsOneMore(rows, i, keyToTargets);
      hide SameTargets, KeysInUse;
      var key := NormalKey(rows[i]);
      if key == "" { continue; }
      SameKeysOneMore(order, keyToTargets, key, Owned(keyToTargets, key) + [FormatMappingTarget(rows[i])]);
      if key !in keyToTargets {
        order := order + [key];
      }
      keyToTargets := PushTarget(keyToTargets, key, FormatMappingTarget(rows[i]));
    }
    assert rows[..|rows|] == rows;
    conflicts := CollectShared(rows, order, keyToTargets);
  }

  method CollectShared(rows: seq<Row>, order: seq<string>, keyToTargets: map<string, seq<string>>)
    returns (conflicts: seq<Conflict>)
    requires order == KeysInUse(rows) && SameKeys(order, keyToTargets) && SameTargets(rows, keyToTargets)
    ensures conflicts == SharedAmong(rows, order)
  {
    KeysInUseExactly(rows);
    hide TargetsOf, KeysInUse;
    conflicts := [];
    for i := 0 to |order|
      invariant conflicts == SharedAmong(rows, order[..i])
    {
      assert order[..i + 1][..i] == order[..i];
      assert order[i] in order && Owned(keyToTargets, order[i]) == TargetsOfKey(rows, order[i]);
      var targets := keyToTargets[order[i]];
      if |targets| > 1 {
        conflicts := conflicts + [Conflict(order[i], targets)];
      }
    }
    assert order[..|order|] == order;
  }

  /** The keys in use are the non-empty keys of the rows, each once. */
  lemma {:induction false} KeysInUseExactly(rows: seq<Row>)
    ensures forall key :: key in KeysInUse(rows) <==> key != "" && exists i | 0 <= i < |rows| :: NormalKey(rows[i]) == key
    ensures forall i, j | 0 <= i < j < |KeysInUse(rows)| :: KeysInUse(rows)[i] != KeysInUse(rows)[j]
  {
    if rows != [] {
      KeysInUseExactly(rows[..|rows| - 1]);
    }
  }

  predicate KeysPresent(rows: seq<Row>) {
    forall i | 0 <= i < |rows| :: NormalKey(rows[i]) != ""
  }

  predicate KeysDistinct(rows: seq<Row>) {
    forall i, j | 0 <= i < j < |rows| :: NormalKey(rows[i]) != NormalKey(rows[j])
  }

  /** No action has more rows than its limit. */
  ghost predicate WithinLimits(rows: seq<Row>) {
    forall action :: |TargetsOfAction(rows, action)| <= Limit(action)
  }

  predicate NamesAreOwn(rows: seq<Row>) {
    forall i | 0 <= i < |rows| :: !IsInherited(ActionName(rows[i]))
  }

  /** What the counting loop accepts. */
  ghost predicate InOrder(rows: seq<Row>) {
    NamesAreOwn(rows) && WithinLimits(rows)
  }

  /** The row at which the counting loop ends early: all rows before it are counted and within their limits. */
  ghost predicate StopsAt(rows: seq<Row>, i: nat) {
    && i < |rows|
    && InOrder(rows[..i])
    && (IsInherited(ActionName(rows[i]))
        || |TargetsOfAction(rows[..i + 1], ActionName(rows[i]))| > Limit(ActionName(rows[i])))
  }

  lemma {:induction false} TargetsGrow(rows: seq<Row>, more: nat, action: string)
    requires more <= |rows|
    ensures |TargetsOfAction(rows[..more], action)| <= |TargetsOfAction(rows, action)|
  {
    if more == |rows| {
      assert rows[..more] == rows;
    } else {
      TargetsGrow(rows[..|rows| - 1], more, action);
      assert rows[..|rows| - 1][..more] == rows[..more];
    }
  }

  /** Rows that stop the loop somewhere are not all in order. */
  lemma StopsForGood(rows: seq<Row>, i: nat)
    requires StopsAt(rows, i)
    ensures !InOrder(rows)
  {
    TargetsGrow(rows, i + 1, ActionName(rows[i]));
  }

  /** The answer of the counting loop when it ends early. */
  ghost predicate EndsEarly(rows: seq<Row>, result: Result<Verdict, Thrown>) {
    exists i: nat | StopsAt(rows, i) ::
      var action := ActionName(rows[i]);
      result == if IsInherited(action) then Failure(TypeError)
                else Success(Rejected(TooMany(action, TargetsOfAction(rows[..i + 1], action))))
  }

  /** What validation answers, as a relation: which check fails first, and at which row. */
  ghost predicate Judged(rows: seq<Row>, result: Result<Verdict, Thrown>) {
    if !KeysPresent(rows) then
      exists i | 0 <= i < |rows| ::
        && NormalKey(rows[i]) == "" && KeysPresent(rows[..i])
        && result == Success(Rejected(KeyMissing(FormatMappingTarget(rows[i]))))
    else if ConflictsOf(rows) != [] then
      result == Success(Rejected(KeysShared(ConflictsOf(rows))))
    else if InOrder(rows) then result == Success(Fine)
    else EndsEarly(rows, result)
  }

  /** validateKeyboardMappingRows; None stands for null or undefined. */
  method ValidateKeyboardMappingRows(rows: Option<seq<Row>>) returns (result: Result<Verdict, Thrown>)
    ensures Judged(if rows.Some? then rows.value else [], result)
  {
    if rows.None? || rows.value == [] {
      return Success(Fine);
    }
    result := JudgeRows(rows.value);
  }

  function CountOf(counts: map<string, nat>, action: string): nat {
    if action in counts then counts[action] else 0
  }

  /** The two tables of the counting loop say what the rows so far say. */
  ghost predicate Counted(rows: seq<Row>, owners: map<string, seq<string>>, counts: map<string, nat>) {
    forall a :: Owned(owners, a) == TargetsOfAction(rows, a) && CountOf(counts, a) == |Owned(owners, a)|
  }

  lemma CountedOneMore(rows: seq<Row>, i: nat, owners: map<string, seq<string>>, counts: map<string, nat>)
    requires i < |rows| && Counted(rows[..i], owners, counts)
    ensures var action := ActionName(rows[i]);
      Counted(rows[..i + 1], owners[action := Owned(owners, action) + [FormatMappingTarget(rows[i])]],
              counts[action := CountOf(counts, action) + 1])
  {
    hide TargetsOf, FormatMappingTarget, ActionName;
    var action := ActionName(rows[i]);
    var later := owners[action := Owned(owners, action) + [FormatMappingTarget(rows[i])]];
    var counted := counts[action := CountOf(counts, action) + 1];
    forall a
      ensures Owned(later, a) == TargetsOfAction(rows[..i + 1], a) && CountOf(counted, a) == |Owned(later, a)|
    {
      OneMoreRow(rows, i, ActionName, a);
      assert Owned(owners, a) == TargetsOfAction(rows[..i], a);
    }
  }

  lemma LookUp(rows: seq<Row>, owners: map<string, seq<string>>, counts: map<string, nat>, action: string)
    requires Counted(rows, owners, counts) && action in owners && action in counts
    ensures owners[action] == TargetsOfAction(rows, action) && counts[action] == |owners[action]|
  {
    assert Owned(owners, action) == TargetsOfAction(rows, action);
  }

  /** At a row in whose turn nothing is wrong the rows so far stay in order. */
  lemma InOrderOneMore(rows: seq<Row>, i: nat)
    requires i < |rows| && InOrder(rows[..i]) && !IsInherited(ActionName(rows[i]))
    requires |TargetsOfAction(rows[..i + 1], ActionName(rows[i]))| <= Limit(ActionName(rows[i]))
    ensures InOrder(rows[..i + 1])
  {
    hide TargetsOf, FormatMappingTarget, ActionName, Limit, IsInherited;
    forall a
      ensures |TargetsOfAction(rows[..i + 1], a)| <= Limit(a)
    {
      OneMoreRow(rows, i, ActionName, a);
      assert |TargetsOfAction(rows[..i], a)| <= Limit(a);
    }
  }

  lemma InheritedEnds(rows: seq<Row>, i: nat)
    requires i < |rows| && InOrder(rows[..i]) && IsInherited(ActionName(rows[i]))
    ensures EndsEarly(rows, Failure(TypeError)) && !InOrder(rows)
  {
    assert StopsAt(rows, i);
    StopsForGood(rows, i);
  }

  lemma OverLimitEnds(rows: seq<Row>, i: nat, action: string)
    requires i < |rows| && InOrder(rows[..i]) && action == ActionName(rows[i]) && !IsInherited(action)
    requires |TargetsOfAction(rows[..i + 1], action)| > Limit(action)
    ensures EndsEarly(rows, Success(Rejected(TooMany(action, TargetsOfAction(rows[..i + 1], action))))) && !InOrder(rows)
  {
    assert StopsAt(rows, i);
    StopsForGood(rows, i);
  }

  /** The counting loop. */
  method CountActions(rows: seq<Row>) returns (result: Result<Verdict, Thrown>)
    ensures InOrder(rows) ==> result == Success(Fine)
    ensures !InOrder(rows) ==> EndsEarly(rows, result)
  {
    var actionOwners: map<string, seq<string>> := map[];
    var actionCounts: map<string, nat> := map[];
    assert rows[..0] == [];
    assert InOrder([]) && Counted([], actionOwners, actionCounts);
    hide *;
    for i := 0 to |rows|
      invariant InOrder(rows[..i]) && Counted(rows[..i], actionOwners, actionCounts)
    {
      var action := ActionName(rows[i]);
      var max := Limit(action);
      if IsInherited(action) {
        // The inherited value is truthy, so no list is made for it, and it has no push.
        InheritedEnds(rows, i);
        return Failure(TypeError);
      }
      CountedOneMore(rows, i, actionOwners, actionCounts);
      actionCounts := actionCounts[action := CountOf(actionCounts, action) + 1];
      actionOwners := PushTarget(actionOwners, action, FormatMappingTarget(rows[i]));
      LookUp(rows[..i + 1], actionOwners, actionCounts, action);
      if actionCounts[action] > max {
        OverLimitEnds(rows, i, action);
        return Success(Rejected(TooMany(action, actionOwners[action])));
      }
      InOrderOneMore(rows, i);
    }
    assert rows[..|rows|] == rows;
    result := Success(Fine);
  }

  method JudgeRows(rows: seq<Row>) returns (result: Result<Verdict, Thrown>)
    ensures Judged(rows, result)
  {
    for i := 0 to |rows|
      invariant KeysPresent(rows[..i])
    {
      if NormalKey(rows[i]) == "" {
        return Success(Rejected(KeyMissing(FormatMappingTarget(rows[i]))));
      }
    }
    assert rows[..|rows|] == rows;
    var duplicateConflicts := FindDuplicateKeyConflicts(rows);
    if duplicateConflicts != [] {
      return Success(Rejected(KeysShared(duplicateConflicts)));
    }
    result := CountActions(rows);
  }

  /** The bindings after some rows, one assignment each; assigning to __proto__ makes no property. */
  function BindingsOf(rows: seq<Row>): map<string, Option<string>> {
    if rows == [] then map[]
    else
      var before := BindingsOf(rows[..|rows| - 1]);
      var last := rows[|rows| - 1];
      if NormalKey(last) == PROTO then before else before[NormalKey(last) := last.action]
  }

  /** buildBindingsFromRows; iterating over null throws after the check has passed. */
  method BuildBindingsFromRows(rows: Option<seq<Row>>) returns (result: Result<map<string, Option<string>>, Thrown>)
    ensures rows.None? ==> result == Failure(TypeError)
    ensures rows.Some? ==>
      match result
      case Success(bindings) => Judged(rows.value, Success(Fine)) && bindings == BindingsOf(rows.value)
      case Failure(Invalid(reason)) => Judged(rows.value, Success(Rejected(reason)))
      case Failure(TypeError) => Judged(rows.value, Failure(TypeError))
  {
    var check := ValidateKeyboardMappingRows(rows);
    if check.Failure? {
      return Failure(check.error);
    }
    if check.value.Rejected? {
      return Failure(Invalid(check.value.reason));
    }
    if rows.None? {
      return Failure(TypeError);
    }
    var bindings: map<string, Option<string>> := map[];
    for i := 0 to |rows.value|
      invariant bindings == BindingsOf(rows.value[..i])
    {
      assert rows.value[..i + 1][..i] == rows.value[..i];
      var key := NormalKey(rows.value[i]);
      if key != PROTO {
        bindings := bindings[key := rows.value[i].action];
      }
    }
    assert rows.value[..|rows.value|] == rows.value;
    result := Success(bindings);
  }

  // ---------- what the answers mean ----------

  /** A key has several targets exactly when two rows share it. */
  lemma {:induction false} TargetsCount(rows: seq<Row>, key: string)
    ensures TargetsOfKey(rows, key) != [] <==> exists i | 0 <= i < |rows| :: NormalKey(rows[i]) == key
    ensures |TargetsOfKey(rows, key)| > 1 <==> exists i, j | 0 <= i < j < |rows| :: NormalKey(rows[i]) == key && NormalKey(rows[j]) == key
  {
    hide NormalKey;
    if rows != [] {
      TargetsCount(rows[..|rows| - 1], key);
    }
  }

  lemma {:induction false} SharedExactly(rows: seq<Row>, keys: seq<string>)
    requires forall i, j | 0 <= i < j < |keys| :: keys[i] != keys[j]
    ensures forall c | c in SharedAmong(rows, keys) :: c.key in keys && c.targets == TargetsOfKey(rows, c.key) && |c.targets| > 1
    ensures forall key | key in keys && |TargetsOfKey(rows, key)| > 1 :: Conflict(key, TargetsOfKey(rows, key)) in SharedAmong(rows, keys)
    ensures forall i, j | 0 <= i < j < |SharedAmong(rows, keys)| :: SharedAmong(rows, keys)[i].key != SharedAmong(rows, keys)[j].key
  {
    hide TargetsOfKey;
    if keys != [] {
      SharedExactly(rows, keys[..|keys| - 1]);
    }
  }

  /** The conflict list names each non-empty key that two rows share, once, with all its targets, and nothing else. */
  lemma ConflictsExactly(rows: seq<Row>)
    ensures forall c | c in ConflictsOf(rows) :: c.key != "" && c.targets == TargetsOfKey(rows, c.key) && |c.targets| > 1
    ensures forall key | key != "" && |TargetsOfKey(rows, key)| > 1 :: Conflict(key, TargetsOfKey(rows, key)) in ConflictsOf(rows)
    ensures forall i, j | 0 <= i < j < |ConflictsOf(rows)| :: ConflictsOf(rows)[i].key != ConflictsOf(rows)[j].key
  {
    KeysInUseExactly(rows);
    SharedExactly(rows, KeysInUse(rows));
    forall key | key != "" && |TargetsOfKey(rows, key)| > 1
      ensures key in KeysInUse(rows)
    {
      TargetsCount(rows, key);
    }
  }

  /** With no key missing there is no conflict exactly when the keys are pairwise distinct. */
  lemma NoConflictExactly(rows: seq<Row>)
    requires KeysPresent(rows)
    ensures ConflictsOf(rows) == [] <==> KeysDistinct(rows)
  {
    ConflictsExactly(rows);
    if ConflictsOf(rows) != [] {
      var c := ConflictsOf(rows)[0];
      assert c in ConflictsOf(rows);
      TargetsCount(rows, c.key);
    }
    if !KeysDistinct(rows) {
      var i, j :| 0 <= i < j < |rows| && NormalKey(rows[i]) == NormalKey(rows[j]);
      TargetsCount(rows, NormalKey(rows[i]));
      assert Conflict(NormalKey(rows[i]), TargetsOfKey(rows, NormalKey(rows[i]))) in ConflictsOf(rows);
    }
  }

  lemma StopIsUnique(rows: seq<Row>, i: nat, j: nat)
    requires StopsAt(rows, i) && StopsAt(rows, j)
    ensures i == j
  {
    if i < j { StopsBefore(rows, i, j); }
    if j < i { StopsBefore(rows, j, i); }
  }

  lemma StopsBefore(rows: seq<Row>, i: nat, j: nat)
    requires StopsAt(rows, i) && i < j <= |rows|
    ensures !InOrder(rows[..j])
  {
    hide InOrder, TargetsOf, IsInherited, Limit, ActionName;
    assert rows[..j][..i] == rows[..i] && rows[..j][..i + 1] == rows[..i + 1];
    assert StopsAt(rows[..j], i);
    StopsForGood(rows[..j], i);
  }

  /** Validation has one answer. */
  lemma JudgedOnce(rows: seq<Row>, a: Result<Verdict, Thrown>, b: Result<Verdict, Thrown>)
    requires Judged(rows, a) && Judged(rows, b)
    ensures a == b
  {
    hide InOrder, StopsAt, IsInherited, ActionName, NormalKey, TargetsOf, ConflictsOf, FormatMappingTarget;
    if KeysPresent(rows) && ConflictsOf(rows) == [] && !InOrder(rows) {
      forall i: nat, j: nat | StopsAt(rows, i) && StopsAt(rows, j)
        ensures i == j
      {
        StopIsUnique(rows, i, j);
      }
    }
  }

  /**
   Rows pass exactly when no key is missing, no key is shared, each MOVE_ action has at most two rows and every other
   action at most one, and no action carries the name of a property all objects inherit.
   */
  lemma PassesExactly(rows: seq<Row>, result: Result<Verdict, Thrown>)
    requires Judged(rows, result)
    ensures result == Success(Fine) <==> KeysPresent(rows) && KeysDistinct(rows) && WithinLimits(rows) && NamesAreOwn(rows)
  {
    hide WithinLimits, NamesAreOwn, KeysDistinct, StopsAt, NormalKey, ConflictsOf;
    if KeysPresent(rows) { NoConflictExactly(rows); }
  }

  /** One row with a key and an inherited action name keeps every documented rule, and the check throws. */
  lemma InheritedNameThrows(row: Row, result: Result<Verdict, Thrown>)
    requires NormalKey(row) != "" && IsInherited(ActionName(row)) && Judged([row], result)
    ensures KeysPresent([row]) && KeysDistinct([row]) && WithinLimits([row]) && result == Failure(TypeError)
  {
    hide NormalKey, IsInherited, ActionName, TargetsOf, Limit, FormatMappingTarget, ConflictsOf, WithinLimits, StopsAt;
    NoConflictExactly([row]);
    OneRowWithin(row);
    OneRowStops(row);
  }

  lemma OneRowStops(row: Row)
    requires IsInherited(ActionName(row))
    ensures !InOrder([row]) && StopsAt([row], 0)
    ensures forall i: nat | StopsAt([row], i) :: i == 0
  {
    assert InOrder([]);
    hide IsInherited, ActionName, TargetsOf, Limit;
    assert [row][..0] == [] && [row][0] == row;
    assert !NamesAreOwn([row]);
  }

  /** Such a row, and the answer for it. */
  lemma AnExampleThrows(result: Result<Verdict, Thrown>)
    requires Judged([Row(Some("a"), Some("constructor"), None, None)], result)
    ensures result == Failure(TypeError)
  {
    hide Judged, Trim, Lower;
    var row := Row(Some("a"), Some("constructor"), None, None);
    KeyA();
    assert IsInherited(ActionName(row));
    InheritedNameThrows(row, result);
  }

  lemma KeyA()
    ensures Lower(Trim("a")) == "a"
  {
    assert Trim("a") == "a";
  }

  lemma OneRowWithin(row: Row)
    ensures WithinLimits([row])
  {
    forall action
      ensures |TargetsOfAction([row], action)| <= Limit(action)
    {
      assert [row][..0] == [];
      OneMoreRow([row], 0, ActionName, action);
      assert [row][..1] == [row];
    }
  }

  /** From rows with distinct keys, every key but __proto__ is bound to its own row's action, and nothing else is bound. */
  lemma {:induction false} BindingsExactly(rows: seq<Row>)
    requires KeysDistinct(rows)
    ensures forall i | 0 <= i < |rows| && NormalKey(rows[i]) != PROTO ::
      NormalKey(rows[i]) in BindingsOf(rows) && BindingsOf(rows)[NormalKey(rows[i])] == rows[i].action
    ensures forall key | key in BindingsOf(rows) :: key != PROTO && exists i | 0 <= i < |rows| :: NormalKey(rows[i]) == key
  {
    hide NormalKey;
    if rows != [] {
      BindingsExactly(rows[..|rows| - 1]);
    }
  }

  predicate NoProto(rows: seq<Row>) {
    forall i | 0 <= i < |rows| :: NormalKey(rows[i]) != PROTO
  }

  lemma NoProtoOneMore(rows: seq<Row>)
    requires rows != []
    ensures NoProto(rows) <==> NoProto(rows[..|rows| - 1]) && NormalKey(rows[|rows| - 1]) != PROTO
  {
    hide NormalKey;
    var init := rows[..|rows| - 1];
    assert forall i | 0 <= i < |rows| :: rows[i] == if i < |init| then init[i] else rows[|rows| - 1];
  }

  lemma LastIsNotBound(rows: seq<Row>)
    requires rows != [] && KeysDistinct(rows)
    ensures NormalKey(rows[|rows| - 1]) !in BindingsOf(rows[..|rows| - 1]) && KeysDistinct(rows[..|rows| - 1])
  {
    hide NormalKey;
    BindingsExactly(rows[..|rows| - 1]);
  }

  /** There is one binding per row exactly when no row uses the key __proto__. */
  lemma {:induction false} BindingPerRow(rows: seq<Row>)
    requires KeysDistinct(rows)
    ensures |BindingsOf(rows)| <= |rows|
    ensures |BindingsOf(rows)| == |rows| <==> NoProto(rows)
  {
    if rows != [] {
      LastIsNotBound(rows);
      NoProtoOneMore(rows);
      hide NormalKey, NoProto, KeysDistinct;
      BindingPerRow(rows[..|rows| - 1]);
    }
  }

  // ---------- names, keys and targets spelled out ----------

  predicate AllBlank(s: string) {
    forall i | 0 <= i < |s| :: IsBlank(s[i])
  }

  /** From low to high the text is trimmed: outside all is blank, and neither end of the inside is. */
  predicate IsCore(s: string, low: nat, high: nat) {
    && low <= high <= |s| && AllBlank(s[..low]) && AllBlank(s[high..])
    && (low < high ==> !IsBlank(s[low]) && !IsBlank(s[high - 1]))
  }

  lemma CoreOfTail(s: string, low: nat, high: nat)
    requires s != "" && IsBlank(s[0]) && IsCore(s[1..], low, high)
    ensures IsCore(s, low + 1, high + 1) && s[1..][low..high] == s[low + 1..high + 1]
  {
    assert s[1..][high..] == s[high + 1..] && s[..low + 1] == [s[0]] + s[1..][..low];
    hide IsBlank;
  }

  lemma CoreOfFront(s: string, low: nat, high: nat)
    requires s != "" && IsBlank(s[|s| - 1]) && IsCore(s[..|s| - 1], low, high)
    ensures IsCore(s, low, high) && s[..|s| - 1][low..high] == s[low..high]
  {
    var front := s[..|s| - 1];
    assert front[..low] == s[..low] && s[high..] == front[high..] + [s[|s| - 1]];
    hide IsBlank;
  }

  lemma {:induction false} TrimExactly(s: string) returns (low: nat, high: nat)
    ensures IsCore(s, low, high) && Trim(s) == s[low..high]
    decreases |s|
  {
    hide IsBlank;
    if s != "" && IsBlank(s[0]) {
      low, high := TrimExactly(s[1..]);
      CoreOfTail(s, low, high);
      low, high := low + 1, high + 1;
    } else if s != "" && IsBlank(s[|s| - 1]) {
      low, high := TrimExactly(s[..|s| - 1]);
      CoreOfFront(s, low, high);
    } else {
      low, high := 0, |s|;
    }
  }

  const CAPITALS := "ABCDEFGHIJKLMNOPQRSTUVWXYZ"
  const SMALLS := "abcdefghijklmnopqrstuvwxyz"

  /** Each capital letter is replaced by the small letter at its place in the alphabet, and nothing else changes. */
  ghost predicate IsLowered(from: string, to: string) {
    && |to| == |from|
    && (forall k, n | 0 <= k < |from| && 0 <= n < 26 && from[k] == CAPITALS[n] :: to[k] == SMALLS[n])
    && (forall k | 0 <= k < |from| && from[k] !in CAPITALS :: to[k] == from[k])
  }

  lemma LetterAt(c: char, n: nat)
    requires n < 26
    ensures CAPITALS[n] as int == 65 + n && SMALLS[n] as int == 97 + n
    ensures 'A' <= c <= 'Z' ==> CAPITALS[c as int - 65] == c
  {
  }

  lemma LowerExactly(s: string)
    ensures IsLowered(s, Lower(s))
  {
    forall k, n | 0 <= k < |s| && 0 <= n < 26 && s[k] == CAPITALS[n]
      ensures Lower(s)[k] == SMALLS[n]
    {
      LetterAt(s[k], n);
    }
    forall k | 0 <= k < |s| && s[k] !in CAPITALS
      ensures Lower(s)[k] == s[k]
    {
      LetterAt(s[k], 0);
    }
  }

  /** The key of a row is what was entered, none counting as empty, trimmed and in small letters. */
  lemma NormalKeyExactly(row: Row)
    ensures var entered := match row.key case None => "" case Some(key) => key;
      exists low: nat, high: nat :: IsCore(entered, low, high) && IsLowered(entered[low..high], NormalKey(row))
  {
    var entered := match row.key case None => "" case Some(key) => key;
    var low, high := TrimExactly(entered);
    LowerExactly(entered[low..high]);
  }

  /** A target is shown with its group, "其他" without one, and by its label, else its action, else "未命名". */
  lemma TargetShown(group: string, caption: string, action: string, key: Option<string>)
    requires group != "" && caption != "" && action != ""
    ensures FormatMappingTarget(Row(key, Some(action), Some(caption), Some(group))) == group + " / " + caption
    ensures forall none | none in [None, Some("")] ::
      && FormatMappingTarget(Row(key, Some(action), none, Some(group))) == group + " / " + action
      && FormatMappingTarget(Row(key, none, none, Some(group))) == group + " / 未命名"
      && FormatMappingTarget(Row(key, none, Some(caption), none)) == "其他 / " + caption
  {
    assert group + " / " + "未命名" == group + " / 未命名";
    assert "其他" + " / " + caption == "其他 / " + caption;
  }

  /** Some rows in increasing order: all those with a name, and no others. */
  ghost predicate AreTheRows(rows: seq<Row>, nameOf: Row -> string, name: string, at: seq<nat>) {
    && (forall k | 0 <= k < |at| :: at[k] < |rows| && nameOf(rows[at[k]]) == name)
    && (forall k, m | 0 <= k < m < |at| :: at[k] < at[m])
    && (forall i | 0 <= i < |rows| && nameOf(rows[i]) == name :: i in at)
  }

  predicate AreTheirTargets(rows: seq<Row>, targets: seq<string>, at: seq<nat>) {
    |targets| == |at| && forall k | 0 <= k < |at| :: at[k] < |rows| && targets[k] == FormatMappingTarget(rows[at[k]])
  }

  /** The targets of a name are those of its rows, one each, in the order of the rows. */
  lemma {:induction false} TargetsExactly(rows: seq<Row>, nameOf: Row -> string, name: string) returns (at: seq<nat>)
    ensures AreTheRows(rows, nameOf, name, at) && AreTheirTargets(rows, TargetsOf(rows, nameOf, name), at)
  {
    at := [];
    if rows != [] {
      var last := |rows| - 1;
      at := TargetsExactly(rows[..last], nameOf, name);
      RowsOneMore(rows, nameOf, name, at);
      TargetsOneMore(rows, TargetsOf(rows[..last], nameOf, name), at);
      hide AreTheRows, AreTheirTargets, FormatMappingTarget;
      if nameOf(rows[last]) == name { at := at + [last]; }
    }
  }

  lemma TargetsOneMore(rows: seq<Row>, targets: seq<string>, at: seq<nat>)
    requires rows != [] && AreTheirTargets(rows[..|rows| - 1], targets, at)
    ensures var last := |rows| - 1;
      AreTheirTargets(rows, targets + [], at) && AreTheirTargets(rows, targets + [FormatMappingTarget(rows[last])], at + [last])
  {
    hide FormatMappingTarget;
  }

  lemma RowsOneMore(rows: seq<Row>, nameOf: Row -> string, name: string, before: seq<nat>)
    requires rows != [] && AreTheRows(rows[..|rows| - 1], nameOf, name, before)
    ensures var last := |rows| - 1;
      AreTheRows(rows, nameOf, name, if nameOf(rows[last]) == name then before + [last] else before)
  {
    var last := |rows| - 1;
    var front := rows[..last];
    assert forall i | 0 <= i < last :: front[i] == rows[i];
    assert forall k | 0 <= k < |before| :: before[k] < last && nameOf(rows[before[k]]) == name;
    if nameOf(rows[last]) == name {
      var at := before + [last];
      assert forall k | 0 <= k < |at| :: at[k] == if k < |before| then before[k] else last;
      forall i | 0 <= i < |rows| && nameOf(rows[i]) == name
        ensures i in at
      {
        if i == last { assert at[|before|] == i; } else { assert nameOf(front[i]) == name && i in before; }
      }
    } else {
      forall i | 0 <= i < |rows| && nameOf(rows[i]) == name
        ensures i in before
      {
        assert nameOf(front[i]) == name;
      }
    }
  }

  /** A name's rows number more than one, or more than two, exactly when there are two, or three, of them. */
  lemma CountsExactly(rows: seq<Row>, nameOf: Row -> string, name: string)
    ensures |TargetsOf(rows, nameOf, name)| > 1 <==>
      exists i, j | 0 <= i < j < |rows| :: nameOf(rows[i]) == name && nameOf(rows[j]) == name
    ensures |TargetsOf(rows, nameOf, name)| > 2 <==>
      exists i, j, k | 0 <= i < j < k < |rows| :: nameOf(rows[i]) == name && nameOf(rows[j]) == name && nameOf(rows[k]) == name
  {
    var at := TargetsExactly(rows, nameOf, name);
    hide TargetsOf;
    if |at| > 1 { assert at[0] < at[1]; }
    if |at| > 2 { assert at[1] < at[2]; }
  }

  // Two rows of one action; an action that is missing counts as "undefined".
  predicate SameAction(a: Row, b: Row) {
    (match a.action case None => "undefined" case Some(action) => action) ==
    (match b.action case None => "undefined" case Some(action) => action)
  }

  predicate IsMove(row: Row) {
    row.action.Some? && |row.action.value| >= 5 && row.action.value[..5] == "MOVE_"
  }

  /** Two rows share an action only if it begins with MOVE_, and three rows never do. */
  predicate NoActionTooOften(rows: seq<Row>) {
    && (forall i, j | 0 <= i < j < |rows| && SameAction(rows[i], rows[j]) :: IsMove(rows[i]))
    && (forall i, j, k | 0 <= i < j < k < |rows| :: !(SameAction(rows[i], rows[j]) && SameAction(rows[j], rows[k])))
  }

  lemma LimitOf(row: Row)
    ensures Limit(ActionName(row)) == if IsMove(row) then 2 else 1
  {
    assert "undefined"[0] != "MOVE_"[0];
  }

  lemma SameActionExactly(a: Row, b: Row)
    ensures SameAction(a, b) <==> ActionName(a) == ActionName(b)
  {
  }

  lemma NoneTooOften(rows: seq<Row>)
    requires WithinLimits(rows)
    ensures NoActionTooOften(rows)
  {
    forall i, j | 0 <= i < j < |rows| && SameAction(rows[i], rows[j])
      ensures IsMove(rows[i])
      ensures forall k | j < k < |rows| :: !SameAction(rows[j], rows[k])
    {
      var action := ActionName(rows[i]);
      assert |TargetsOfAction(rows, action)| <= Limit(action);
      LimitOf(rows[i]);
      CountsExactly(rows, ActionName, action);
    }
  }

  lemma LimitIsPositive(action: string)
    ensures Limit(action) >= 1
  {
  }

  lemma SomeTooOften(rows: seq<Row>, action: string)
    requires |TargetsOfAction(rows, action)| > Limit(action)
    ensures !NoActionTooOften(rows)
  {
    LimitIsPositive(action);
    hide TargetsOf, ActionName, SameAction, IsMove, Limit;
    CountsExactly(rows, ActionName, action);
    var i, j :| 0 <= i < j < |rows| && ActionName(rows[i]) == action && ActionName(rows[j]) == action;
    LimitOf(rows[i]);
    SameActionExactly(rows[i], rows[j]);
    if IsMove(rows[i]) {
      var a, b, c :| 0 <= a < b < c < |rows| && ActionName(rows[a]) == action && ActionName(rows[b]) == action && ActionName(rows[c]) == action;
      SameActionExactly(rows[a], rows[b]);
      SameActionExactly(rows[b], rows[c]);
    }
  }

  /** The same condition without the limits: */
  lemma WithinLimitsExactly(rows: seq<Row>)
    ensures WithinLimits(rows) <==> NoActionTooOften(rows)
  {
    if WithinLimits(rows) {
      NoneTooOften(rows);
    } else {
      var action :| |TargetsOfAction(rows, action)| > Limit(action);
      SomeTooOften(rows, action);
    }
  }

  /** Rows pass exactly when keys are present and distinct, no action comes too often and none has an inherited name. */
  lemma PassesByTheRows(rows: seq<Row>, result: Result<Verdict, Thrown>)
    requires Judged(rows, result)
    ensures result == Success(Fine) <==>
      && (forall i | 0 <= i < |rows| :: NormalKey(rows[i]) != "")
      && (forall i, j | 0 <= i < j < |rows| :: NormalKey(rows[i]) != NormalKey(rows[j]))
      && NoActionTooOften(rows)
      && (forall i | 0 <= i < |rows| && rows[i].action.Some? :: rows[i].action.value !in INHERITED)
  {
    PassesExactly(rows, result);
    WithinLimitsExactly(rows);
    NamesAreOwnExactly(rows);
    hide Judged, WithinLimits, NoActionTooOften, NormalKey, NamesAreOwn;
  }

  lemma NamesAreOwnExactly(rows: seq<Row>)
    ensures NamesAreOwn(rows) <==> forall i | 0 <= i < |rows| && rows[i].action.Some? :: rows[i].action.value !in INHERITED
  {
    assert !IsInherited("undefined");
    hide INHERITED;
  }

  /** The conflicts come in the order in which their keys are first used. */
  lemma {:induction false} KeysInOrder(rows: seq<Row>, a: nat, b: nat)
    requires a < b < |KeysInUse(rows)|
    ensures exists i | 0 <= i < |rows| ::
      NormalKey(rows[i]) == KeysInUse(rows)[a] && forall j | 0 <= j <= i :: NormalKey(rows[j]) != KeysInUse(rows)[b]
  {
    hide NormalKey;
    var front := rows[..|rows| - 1];
    KeysInUseExactly(front);
    if b < |KeysInUse(front)| {
      KeysInOrder(front, a, b);
      var i :| 0 <= i < |front| && NormalKey(front[i]) == KeysInUse(front)[a]
        && forall j | 0 <= j <= i :: NormalKey(front[j]) != KeysInUse(front)[b];
      assert NormalKey(rows[i]) == KeysInUse(rows)[a];
      assert forall j | 0 <= j <= i :: rows[j] == front[j];
    } else {
      assert KeysInUse(front)[a] in KeysInUse(front);
      var i :| 0 <= i < |front| && NormalKey(front[i]) == KeysInUse(front)[a];
      assert NormalKey(rows[i]) == KeysInUse(rows)[a];
      assert KeysInUse(rows)[b] !in KeysInUse(front);
      assert forall j | 0 <= j <= i :: NormalKey(front[j]) != KeysInUse(rows)[b];
    }
  }

  /** Conflict a of the list is about a key at a place of its own among the keys in use. */
  lemma {:induction false} SharedPlaces(rows: seq<Row>, keys: seq<string>) returns (at: seq<nat>)
    ensures |at| == |SharedAmong(rows, keys)|
    ensures forall k | 0 <= k < |at| :: at[k] < |keys| && SharedAmong(rows, keys)[k].key == keys[at[k]]
    ensures forall k, m | 0 <= k < m < |at| :: at[k] < at[m]
  {
    hide TargetsOfKey;
    at := [];
    if keys != [] {
      var last := |keys| - 1;
      at := SharedPlaces(rows, keys[..last]);
      if |TargetsOfKey(rows, keys[last])| > 1 { at := at + [last]; }
    }
  }

  lemma ConflictsInOrder(rows: seq<Row>, a: nat, b: nat)
    requires a < b < |ConflictsOf(rows)|
    ensures exists i | 0 <= i < |rows| ::
      && NormalKey(rows[i]) == ConflictsOf(rows)[a].key
      && forall j | 0 <= j <= i :: NormalKey(rows[j]) != ConflictsOf(rows)[b].key
  {
    var at := SharedPlaces(rows, KeysInUse(rows));
    KeysInOrder(rows, at[a], at[b]);
    hide KeysInUse, SharedAmong, NormalKey;
  }
}
