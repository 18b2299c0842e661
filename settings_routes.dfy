/** server/src/routes/settings.ts: the settings table behind `validateToken`.
    The routes read all rows or update one row by key; none inserts or deletes. */
module SettingRoutes {
  import opened Wrappers
  import opened Schema
  import opened Tokens
  import Tables

  datatype Response =
    | Rejected(code: int)
    | SettingList(settings: seq<(int, Setting)>)
    | UpdatedSetting(setting: Setting)
    | NotFound
  {
    function Code(): int {
      match this
      case Rejected(code) => code
      case NotFound => 404
      case _ => 200
    }
  }

  /** The keys present in the table. */
  function KeysOf(rows: map<int, Setting>): set<string> {
    set id | id in rows :: rows[id].key
  }

  class SettingStore {
    var rows: map<int, Setting>
    var nextId: int

    ghost predicate Valid()
      reads this
    {
      1 <= nextId && Tables.IdsBelow(rows, nextId) && KeysUnique(rows)
    }

    constructor ()
      ensures Valid() && rows == map[] && nextId == 1
    {
      rows := map[];
      nextId := 1;
    }

    /** A multi-row insert of rows with fresh, pairwise distinct keys, as the seeding does it. */
    method InsertAll(seed: seq<Setting>)
      requires Valid()
      requires forall i, j :: 0 <= i < j < |seed| ==> seed[i].key != seed[j].key
      requires forall i, id :: 0 <= i < |seed| && id in rows ==> rows[id].key != seed[i].key
      modifies this
      ensures Valid()
      ensures rows == Tables.Appended(old(rows), old(nextId), seed) && nextId == old(nextId) + |seed|
    {
      var added := Tables.Appended(rows, nextId, seed);
      forall k | k in added && k !in rows ensures 0 <= k - nextId < |seed| && added[k] == seed[k - nextId] {
        assert added[k] == seed[k - nextId];
      }
      rows := added;
      nextId := nextId + |seed|;
    }

    /** `GET /`: every setting. */
    method List(header: Option<string>, verify: string -> Verification) returns (r: Response)
      requires Valid()
      ensures ValidateToken(header, verify).Reject? ==> r == Rejected(ValidateToken(header, verify).code)
      ensures ValidateToken(header, verify).Pass? ==> r.SettingList?
      ensures r.SettingList? ==> forall id :: id in rows ==> (id, rows[id]) in r.settings
      ensures r.SettingList? ==> forall i :: 0 <= i < |r.settings| ==>
        r.settings[i].0 in rows && rows[r.settings[i].0] == r.settings[i].1
      ensures r.SettingList? ==> forall i, j :: 0 <= i < j < |r.settings| ==> r.settings[i].0 < r.settings[j].0
    {
      var gate := ValidateToken(header, verify);
      if gate.Reject? {
        return Rejected(gate.code);
      }
      r := SettingList(Tables.ByIdOrder(rows, 1, nextId));
    }

    /** `PUT /:key`: 404 and no row created when the key is absent; otherwise
        the row with that key gets the new value (kept when the body has
        none) and updated_at = `now`; its key, category and description and
        every other row stay as they were. */
    method Update(header: Option<string>, verify: string -> Verification, key: string,
                  value: Option<string>, now: int) returns (r: Response)
      requires Valid()
      modifies this
      ensures Valid() && nextId == old(nextId)
      ensures rows.Keys == old(rows).Keys && KeysOf(rows) == KeysOf(old(rows)) && |rows| == |old(rows)|
      ensures ValidateToken(header, verify).Reject? ==>
        r == Rejected(ValidateToken(header, verify).code) && rows == old(rows)
      ensures ValidateToken(header, verify).Pass? && key !in KeysOf(old(rows)) ==>
        r == NotFound && rows == old(rows)
      ensures ValidateToken(header, verify).Pass? ==> forall id :: id in old(rows) && old(rows)[id].key == key ==>
        var s := old(rows)[id].(value := value.GetOr(old(rows)[id].value), updatedAt := now);
        r == UpdatedSetting(s) && rows == old(rows)[id := s]
    {
      var gate := ValidateToken(header, verify);
      if gate.Reject? {
        return Rejected(gate.code);
      }
      if id :| id in rows && rows[id].key == key {
        var s := rows[id].(value := value.GetOr(rows[id].value), updatedAt := now);
        ghost var before := rows;
        rows := rows[id := s];
        assert KeysOf(rows) == KeysOf(before) by {
          forall k | k in KeysOf(before) ensures k in KeysOf(rows) {
            var j :| j in before && before[j].key == k;
            assert rows[j].key == k;
          }
        }
        r := UpdatedSetting(s);
      } else {
        r := NotFound;
      }
    }
  }

  /** Keys are unique, so there are as many distinct keys as rows: the
      key set that `Update` preserves pins down the size of the table. */
  lemma {:induction false} KeyCountIsRowCount(rows: map<int, Setting>, next: int)
    requires KeysUnique(rows) && Tables.IdsBelow(rows, next)
    ensures |KeysOf(rows)| == |rows|
    decreases next
  {
    if next <= 1 {
      NoRowsBelowOne(rows, next);
    } else {
      var top := next - 1;
      var rest := rows - {top};
      assert KeysUnique(rest);
      assert Tables.IdsBelow(rest, top);
      KeyCountIsRowCount(rest, top);
      if top in rows {
        RemoveOneKey(rows, top);
      } else {
        assert rest == rows;
      }
    }
  }

  /** Taking one row out of a table with unique keys takes exactly its key out of the key set. */
  lemma RemoveOneKey(rows: map<int, Setting>, id: int)
    requires KeysUnique(rows) && id in rows
    ensures KeysOf(rows) == KeysOf(rows - {id}) + {rows[id].key}
    ensures rows[id].key !in KeysOf(rows - {id})
    ensures |rows| == |rows - {id}| + 1
  {
    var rest := rows - {id};
    forall k | k in KeysOf(rows) ensures k in KeysOf(rest) + {rows[id].key} {
      var j :| j in rows && rows[j].key == k;
      if j != id { assert rest[j].key == k; }
    }
    assert rows.Keys == rest.Keys + {id};
  }

  /** No id is below 1, so a table whose ids lie below 1 is empty. */
  lemma NoRowsBelowOne(rows: map<int, Setting>, next: int)
    requires Tables.IdsBelow(rows, next) && next <= 1
    ensures |rows| == 0 && KeysOf(rows) == {}
  {
    forall id | id in rows.Keys ensures false { }
    assert rows.Keys == {};
  }
}
