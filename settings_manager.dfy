/** client/src/components/SettingsManager.tsx: the admin settings screen.
    It groups the settings by category, guards the edit dialog's save,
    decides when a failed load is retried, and reacts to 401 responses and
    malformed list responses. The HTTP exchange is a parameter. */
module SettingsManager {
  import opened Wrappers
  import opened Schema
  import Text

  /** The group a setting is shown under: its category, or `General` when that is empty. */
  function GroupKey(s: Setting): string {
    if s.category == "" then "General" else s.category
  }

  /** The names a plain `{}` inherits from `Object.prototype`: looking one of
      them up finds a function (or, for `__proto__`, the prototype itself),
      never a list. */
  const InheritedNames: set<string> := {
    "constructor", "toString", "toLocaleString", "valueOf", "hasOwnProperty",
    "isPrototypeOf", "propertyIsEnumerable", "__proto__", "__defineGetter__",
    "__defineSetter__", "__lookupGetter__", "__lookupSetter__" }

  /** The settings of one group, in input order. */
  function InGroup(ss: seq<Setting>, k: string): (r: seq<Setting>)
    ensures forall s :: s in r <==> s in ss && GroupKey(s) == k
    ensures |r| <= |ss|
  {
    if ss == [] then []
    else
      var init := ss[..|ss| - 1];
      var last := ss[|ss| - 1];
      assert forall s :: s in ss <==> s in init || s == last;
      InGroup(init, k) + (if GroupKey(last) == k then [last] else [])
  }

  /** Each setting of the key occurs in its group as often as in the input,
      and no other setting occurs at all. */
  lemma {:induction false} InGroupCounts(ss: seq<Setting>, k: string)
    ensures forall s :: multiset(InGroup(ss, k))[s] == if GroupKey(s) == k then multiset(ss)[s] else 0
    decreases |ss|
  {
    if ss != [] {
      var init := ss[..|ss| - 1];
      InGroupCounts(init, k);
      assert ss == init + [ss[|ss| - 1]];
      assert multiset(ss) == multiset(init) + multiset{ss[|ss| - 1]};
    }
  }

  /** The grouping the reduce intends: each setting pushed, in order, onto the
      list of its group, the list created on its group's first setting. */
  function Grouped(ss: seq<Setting>): map<string, seq<Setting>> {
    if ss == [] then map[]
    else
      var init := ss[..|ss| - 1];
      var last := ss[|ss| - 1];
      var g := Grouped(init);
      var k := GroupKey(last);
      g[k := (if k in g then g[k] else []) + [last]]
  }

  /** Each group holds exactly the settings of its category, in input order,
      and a category with no settings has no group. */
  lemma {:induction false} GroupsAreInGroup(ss: seq<Setting>)
    ensures forall k :: k in Grouped(ss) ==> Grouped(ss)[k] == InGroup(ss, k) && Grouped(ss)[k] != []
    ensures forall k :: k !in Grouped(ss) ==> InGroup(ss, k) == []
    decreases |ss|
  {
    if ss != [] {
      GroupsAreInGroup(ss[..|ss| - 1]);
    }
  }

  /** Every setting lands in exactly one group, the one its category names,
      and a group holds nothing else. */
  lemma EachSettingInItsGroup(ss: seq<Setting>)
    ensures forall i :: 0 <= i < |ss| ==> GroupKey(ss[i]) in Grouped(ss) && ss[i] in Grouped(ss)[GroupKey(ss[i])]
    ensures forall k, s :: k in Grouped(ss) && s in Grouped(ss)[k] ==> GroupKey(s) == k && s in ss
  {
    GroupsAreInGroup(ss);
    forall i | 0 <= i < |ss|
      ensures GroupKey(ss[i]) in Grouped(ss) && ss[i] in Grouped(ss)[GroupKey(ss[i])]
    {
      assert ss[i] in InGroup(ss, GroupKey(ss[i]));
    }
  }

  /** The categories in order of first appearance. */
  function Categories(ss: seq<Setting>): (r: seq<string>)
    ensures forall i, j :: 0 <= i < j < |r| ==> r[i] != r[j]
    ensures forall k :: k in r <==> k in Grouped(ss)
  {
    if ss == [] then []
    else
      var init := ss[..|ss| - 1];
      var k := GroupKey(ss[|ss| - 1]);
      var c := Categories(init);
      if k in c then c else c + [k]
  }

  /** The sizes of the groups named in `ks`, added up. */
  function SizeSum(ss: seq<Setting>, ks: seq<string>): nat {
    if ks == [] then 0 else |InGroup(ss, ks[0])| + SizeSum(ss, ks[1..])
  }

  /** How often `k` occurs in `ks`. */
  function Occurrences(ks: seq<string>, k: string): nat {
    if ks == [] then 0 else (if ks[0] == k then 1 else 0) + Occurrences(ks[1..], k)
  }

  /** The group sizes add up to the number of settings. */
  lemma {:induction false} GroupSizesAddUp(ss: seq<Setting>)
    ensures SizeSum(ss, Categories(ss)) == |ss|
    decreases |ss|
  {
    if ss != [] {
      var init := ss[..|ss| - 1];
      var last := ss[|ss| - 1];
      assert ss == init + [last];
      var k := GroupKey(last);
      var c := Categories(init);
      GroupSizesAddUp(init);
      SizeSumStep(init, last, Categories(ss));
      OccursOnce(Categories(ss), k);
      if k !in c {
        SizeSumAppend(init, c, [k]);
        GroupsAreInGroup(init);
        assert InGroup(init, k) == [];
      }
    }
  }

  /** One more setting adds one to every group named as often as its own group is. */
  lemma {:induction false} SizeSumStep(init: seq<Setting>, last: Setting, ks: seq<string>)
    ensures SizeSum(init + [last], ks) == SizeSum(init, ks) + Occurrences(ks, GroupKey(last))
    decreases |ks|
  {
    var ss := init + [last];
    assert ss[..|ss| - 1] == init && ss[|ss| - 1] == last;
    if ks != [] {
      SizeSumStep(init, last, ks[1..]);
    }
  }

  lemma {:induction false} SizeSumAppend(ss: seq<Setting>, a: seq<string>, b: seq<string>)
    ensures SizeSum(ss, a + b) == SizeSum(ss, a) + SizeSum(ss, b)
    decreases |a|
  {
    if a == [] {
      assert a + b == b;
    } else {
      assert (a + b)[1..] == a[1..] + b;
      SizeSumAppend(ss, a[1..], b);
    }
  }

  /** A key of a list without repeats occurs in it once. */
  lemma {:induction false} OccursOnce(ks: seq<string>, k: string)
    requires forall i, j :: 0 <= i < j < |ks| ==> ks[i] != ks[j]
    requires k in ks
    ensures Occurrences(ks, k) == 1
    decreases |ks|
  {
    if ks[0] == k {
      NotIn(ks[1..], k);
    } else {
      OccursOnce(ks[1..], k);
    }
  }

  lemma {:induction false} NotIn(ks: seq<string>, k: string)
    requires k !in ks
    ensures Occurrences(ks, k) == 0
    decreases |ks|
  {
    if ks != [] {
      NotIn(ks[1..], k);
    }
  }

  /** The reduce as written: a category that names an inherited member makes
      `acc[category].push` throw, so the screen gets no grouping at all. */
  function GroupedAsWritten(ss: seq<Setting>): Option<map<string, seq<Setting>>> {
    if InheritedBefore(ss, |ss|) then None else Some(Grouped(ss))
  }

  /** One of the first `n` settings has a category named like an inherited member. */
  predicate InheritedBefore(ss: seq<Setting>, n: int)
    requires 0 <= n <= |ss|
  {
    exists i :: 0 <= i < n && GroupKey(ss[i]) in InheritedNames
  }

  lemma InheritedAt(ss: seq<Setting>, i: int)
    requires 0 <= i < |ss| && GroupKey(ss[i]) in InheritedNames
    ensures GroupedAsWritten(ss) == None
  {
    assert InheritedBefore(ss, |ss|);
  }

  /** The input that shows it: one setting of category `constructor`. */
  lemma InheritedCategoryBreaksGrouping(s: Setting)
    requires s.category == "constructor"
    ensures GroupedAsWritten([s]).None?
    ensures Grouped([s]) == map["constructor" := [s]]
  {
    InheritedAt([s], 0);
    assert [s][..0] == [] && [s][..1] == [s];
    GroupedStep([s], 0);
    assert Grouped([]) == map[];
    assert GroupKey(s) == "constructor";
    assert [] + [s] == [s];
  }

  /** Away from the inherited names, the reduce as written is the intended grouping. */
  lemma AsWrittenAgreesOtherwise(ss: seq<Setting>)
    requires forall s :: s in ss ==> GroupKey(s) !in InheritedNames
    ensures GroupedAsWritten(ss) == Some(Grouped(ss))
  {
  }

  /** The reduce, run over the list as the source runs it, pushing into an
      accumulator that starts as `{}`. */
  method GroupSettings(ss: seq<Setting>) returns (groups: Option<map<string, seq<Setting>>>)
    ensures groups == GroupedAsWritten(ss)
  {
    var acc: map<string, seq<Setting>> := map[];
    var i := 0;
    while i < |ss|
      invariant 0 <= i <= |ss|
      invariant acc == Grouped(ss[..i])
      invariant !InheritedBefore(ss, i)
    {
      var category := GroupKey(ss[i]);
      if category in InheritedNames {
        InheritedAt(ss, i);
        return None;
      }
      GroupedStep(ss, i);
      acc := acc[category := (if category in acc then acc[category] else []) + [ss[i]]];
      i := i + 1;
    }
    assert ss[..i] == ss;
    NoneInheritedBefore(ss);
    groups := Some(acc);
  }

  lemma NoneInheritedBefore(ss: seq<Setting>)
    requires !InheritedBefore(ss, |ss|)
    ensures GroupedAsWritten(ss) == Some(Grouped(ss))
  {
  }

  /** Grouping one more setting pushes it onto its group's list. */
  lemma GroupedStep(ss: seq<Setting>, i: int)
    requires 0 <= i < |ss|
    ensures var g := Grouped(ss[..i]);
      var k := GroupKey(ss[i]);
      Grouped(ss[..i + 1]) == g[k := (if k in g then g[k] else []) + [ss[i]]]
  {
    assert ss[..i + 1][..i] == ss[..i];
  }

  /** What `retry` sees as the error: an `Error` with its message, or any other thrown value. */
  datatype Thrown = ErrorWithMessage(message: string) | NonError

  const SessionExpired := "Sesión expirada"

  /** The query's `retry` option. */
  function ShouldRetry(failureCount: int, error: Thrown): (r: bool)
    ensures r ==> failureCount < 3
  {
    if error.ErrorWithMessage? && error.message == SessionExpired then false
    else failureCount < 3
  }

  /** An expired session is never retried; anything else is retried while
      fewer than three attempts have failed. */
  lemma RetryRule(failureCount: int, error: Thrown)
    ensures error == ErrorWithMessage(SessionExpired) ==> !ShouldRetry(failureCount, error)
    ensures error != ErrorWithMessage(SessionExpired) ==> (ShouldRetry(failureCount, error) <==> failureCount < 3)
  {
  }

  /** How many times the query function runs when every run fails, run `n`
      throwing `errorAt(n)`: after each failure `retry` is asked with the
      failures counted before it, and a refusal ends the query. */
  function Attempts(errorAt: nat -> Thrown, failureCount: nat): (n: nat)
    ensures n >= 1
    decreases if failureCount < 3 then 3 - failureCount else 0
  {
    if ShouldRetry(failureCount, errorAt(failureCount)) then 1 + Attempts(errorAt, failureCount + 1)
    else 1
  }

  /** Run `k`, at most the fourth, is the first from run `from` on to report an expired session. */
  predicate FirstExpiredAt(errorAt: nat -> Thrown, from: nat, k: nat) {
    && from <= k <= 3
    && errorAt(k) == ErrorWithMessage(SessionExpired)
    && forall i :: from <= i < k ==> errorAt(i) != ErrorWithMessage(SessionExpired)
  }

  /** A query that keeps failing runs at most four times (the first run and
      three retries), exactly four when no run reports an expired session,
      and stops right after the first expired session within the first four runs. */
  lemma {:induction false} AttemptsBounded(errorAt: nat -> Thrown, failureCount: nat)
    requires failureCount <= 3
    ensures Attempts(errorAt, failureCount) <= 4 - failureCount
    ensures (forall i :: failureCount <= i <= 3 ==> errorAt(i) != ErrorWithMessage(SessionExpired)) ==>
      Attempts(errorAt, failureCount) == 4 - failureCount
    ensures forall k: nat :: FirstExpiredAt(errorAt, failureCount, k) ==> Attempts(errorAt, failureCount) == k - failureCount + 1
    decreases 3 - failureCount
  {
    if failureCount < 3 {
      AttemptsBounded(errorAt, failureCount + 1);
    }
  }

  /** What `EditDialog.handleSave` does. */
  datatype SaveAction = NoDialog | ShowError(message: string) | CallSave(key: string, value: string)

  function SaveDecision(setting: Option<Setting>, value: string): SaveAction {
    if setting.None? then NoDialog
    else if Text.Trim(value) == [] then ShowError("El valor no puede estar vacío")
    else CallSave(setting.value.key, Text.Trim(value))
  }

  /** A blank value is refused with an error and never saved; otherwise the
      save passes the setting's own key and the value trimmed, which is then
      non-empty with no white space at either end. */
  lemma SaveRule(setting: Option<Setting>, value: string)
    ensures SaveDecision(setting, value).CallSave? <==> setting.Some? && !Text.IsBlank(value)
    ensures setting.Some? && Text.IsBlank(value) ==> SaveDecision(setting, value).ShowError?
    ensures SaveDecision(setting, value).CallSave? ==>
      var v := SaveDecision(setting, value).value;
      && SaveDecision(setting, value).key == setting.value.key
      && v != [] && !Text.IsSpace(v[0]) && !Text.IsSpace(v[|v| - 1])
      && v == Text.Trim(value)
  {
    Text.TrimEmptyIffBlank(value);
    if setting.Some? && !Text.IsBlank(value) {
      Text.TrimmedHasNoOuterSpace(value);
    }
  }

  /** The body of a response, as far as the screen looks at it. */
  datatype Body = SettingArray(settings: seq<Setting>) | NotAnArray

  datatype HttpResponse = HttpResponse(status: int, body: Body) {
    predicate Ok() { 200 <= status <= 299 }
  }

  /** `if (!token)` passes: a token is stored and it is not the empty string. */
  predicate HasSession(token: Option<string>) {
    token.Some? && token.value != ""
  }

  /** The browser's stored admin token. */
  class Session {
    var token: Option<string>

    constructor (token: Option<string>)
      ensures this.token == token
    {
      this.token := token;
    }

    /** The query function: no token (or an empty one), a 401 (which also drops the stored
        token), another failure status and a body that is not an array are
        errors; otherwise the settings. `fetch` is the parameter `send`. */
    method LoadSettings(send: string -> HttpResponse) returns (r: Result<seq<Setting>>)
      modifies this
      ensures !HasSession(old(token)) ==> r == Failure("No hay sesión activa") && token == old(token)
      ensures HasSession(old(token)) ==>
        var response := send(old(token).value);
        && (response.status == 401 ==> r == Failure(SessionExpired) && token.None?)
        && (response.status != 401 ==> token == old(token))
        && (!response.Ok() && response.status != 401 ==> r == Failure("Error al cargar configuraciones"))
        && (response.Ok() && response.body.NotAnArray? ==> r == Failure("Formato de datos inválido"))
        && (response.Ok() && response.body.SettingArray? ==> r == Success(response.body.settings))
    {
      if !HasSession(token) {
        return Failure("No hay sesión activa");
      }
      var response := send(token.value);
      if !response.Ok() {
        if response.status == 401 {
          token := None;
          return Failure(SessionExpired);
        }
        return Failure("Error al cargar configuraciones");
      }
      if response.body.NotAnArray? {
        return Failure("Formato de datos inválido");
      }
      r := Success(response.body.settings);
    }

    /** The update mutation: the same token and 401 handling around `PUT /api/settings/:key`. */
    method SaveSetting(key: string, value: string, send: (string, string, string) -> HttpResponse)
      returns (r: Result<()>)
      modifies this
      ensures !HasSession(old(token)) ==> r == Failure("No hay sesión activa") && token == old(token)
      ensures HasSession(old(token)) ==>
        var response := send(old(token).value, key, value);
        && (response.status == 401 ==> r == Failure(SessionExpired) && token.None?)
        && (response.status != 401 ==> token == old(token))
        && (!response.Ok() && response.status != 401 ==> r == Failure("Error al actualizar configuración"))
        && (response.Ok() ==> r == Success(()))
    {
      if !HasSession(token) {
        return Failure("No hay sesión activa");
      }
      var response := send(token.value, key, value);
      if !response.Ok() {
        if response.status == 401 {
          token := None;
          return Failure(SessionExpired);
        }
        return Failure("Error al actualizar configuración");
      }
      r := Success(());
    }
  }
}
