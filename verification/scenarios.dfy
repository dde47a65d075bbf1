/** The list logic of the scenario routes.

    The routes keep every scenario in one JSON file holding an array of
    objects. Each request reads the whole array, works on it in memory, and
    (for the changing routes) writes the whole array back. Here the array
    read is the `store` argument and the array written is the `store` of the
    outcome; whether the write succeeded, the generated id and the
    timestamps are arguments as well. */
module Scenarios {
  import opened Common

  /** A JSON value. */
  datatype Json =
    | Null
    | Bool(b: bool)
    | Number(n: real)
    | Str(s: string)
    | Arr(elems: seq<Json>)
    | Obj(fields: map<string, Json>)

  /** A property name. The names the routes use are constructors of their
      own; every other name is `Other`. A JSON object has each name at most
      once, so in a record read from JSON no `Other` carries one of the
      routes' names: `WellKeyed` states this. */
  datatype Key =
    | Id | Name | Description | CreatedAt | UpdatedAt
    | InitialAmount | MonthlyIncome | MonthlyExpenses | Investments | SavingsRate | InflationRate | Timeframe
    | Other(name: string)

  /** A scenario record, or a request body: a JSON object. A property whose
      value is `undefined` is left out of the JSON text, so it is simply
      absent here. */
  type Scenario = map<Key, Json>

  /** The property names that have constructors of their own in `Key`. */
  const RouteNames: set<string> :=
    {"id", "name", "description", "createdAt", "updatedAt", "initialAmount", "monthlyIncome",
     "monthlyExpenses", "investments", "savingsRate", "inflationRate", "timeframe"}

  /** No property is spelled twice: an `Other` key never names a property
      that has a constructor of its own. */
  predicate WellKeyed(s: Scenario)
  {
    forall k :: k in s && k.Other? ==> k.name !in RouteNames
  }

  /** JavaScript truthiness of a parsed JSON value: `null`, `false`, `0` and
      the empty string are falsy; arrays and objects, even empty, are truthy. */
  predicate Truthy(v: Json)
  {
    match v
    case Null => false
    case Bool(b) => b
    case Number(n) => n != 0.0
    case Str(s) => s != ""
    case Arr(_) => true
    case Obj(_) => true
  }

  /** `s.id === id`: the record's `id` is the same string. */
  predicate HasId(s: Scenario, id: string)
  {
    Id in s && s[Id] == Str(id)
  }

  /** What a changing route answers. */
  datatype Reply =
    | Saved(scenario: Scenario)   // 201 (create) or 200 (update) with the record
    | Removed                     // 200 "Scenario deleted successfully"
    | NotFound                    // 404 "Scenario not found"
    | SaveFailed                  // 500: the file could not be written

  /** The array left in the file, and the reply. */
  datatype Outcome = Outcome(store: seq<Scenario>, reply: Reply)

  // ---------------------------------------------------------------------------
  // Lookup: GET /:id

  /** `scenarios.findIndex(s => s.id === id)`, with `None` for -1. */
  function FindIndex(store: seq<Scenario>, id: string): (r: Option<nat>)
    ensures r.Some? ==> r.value < |store| && HasId(store[r.value], id)
    ensures r.Some? ==> forall j :: 0 <= j < r.value ==> !HasId(store[j], id)
    ensures r.None? <==> forall j :: 0 <= j < |store| ==> !HasId(store[j], id)
  {
    if |store| == 0 then None
    else if HasId(store[0], id) then Some(0)
    else
      match FindIndex(store[1..], id)
      case None =>
        assert forall j :: 1 <= j < |store| ==> store[j] == store[1..][j - 1];
        None
      case Some(i) =>
        assert forall j :: 1 <= j <= i ==> store[j] == store[1..][j - 1];
        Some(i + 1)
  }

  /** The GET `/:id` route: `scenarios.find(s => s.id === id)`, `None` being
      the 404. */
  function Get(store: seq<Scenario>, id: string): (r: Option<Scenario>)
    ensures r.Some? <==> exists j :: 0 <= j < |store| && HasId(store[j], id)
    ensures r.Some? ==> HasId(r.value, id) && r.value in store
    ensures r.Some? ==> r.value == store[FindIndex(store, id).value]
  {
    match FindIndex(store, id)
    case None => None
    case Some(i) => Some(store[i])
  }

  // ---------------------------------------------------------------------------
  // Create: POST /

  /** `req.body[key] || default`. */
  function OrDefault(body: Scenario, key: Key, default: Json): Json
  {
    if key in body && Truthy(body[key]) then body[key] else default
  }

  /** `key: req.body[key]` in an object literal: the property is set when
      the body has it and absent when it is `undefined`. */
  function CopyIfPresent(record: Scenario, body: Scenario, key: Key): Scenario
  {
    if key in body then record[key := body[key]] else record
  }

  /** The record the POST route builds. `createdAt` and `updatedAt` come from
      two separate clock reads. */
  function NewScenario(body: Scenario, id: string, createdAt: string, updatedAt: string): Scenario
  {
    CopyIfPresent(CopyIfPresent(
      map[Id := Str(id),
          CreatedAt := Str(createdAt),
          UpdatedAt := Str(updatedAt),
          InitialAmount := OrDefault(body, InitialAmount, Number(0.0)),
          MonthlyIncome := OrDefault(body, MonthlyIncome, Number(0.0)),
          MonthlyExpenses := OrDefault(body, MonthlyExpenses, Number(0.0)),
          Investments := OrDefault(body, Investments, Arr([])),
          SavingsRate := OrDefault(body, SavingsRate, Number(0.0)),
          InflationRate := OrDefault(body, InflationRate, Number(2.0)),
          Timeframe := OrDefault(body, Timeframe, Number(10.0))],
      body, Name), body, Description)
  }

  /** The POST route: the new record is pushed at the end and the array is
      written back. */
  function Create(store: seq<Scenario>, body: Scenario, id: string, createdAt: string, updatedAt: string,
                  saved: bool): (o: Outcome)
    ensures saved ==> |o.store| == |store| + 1 && o.store[..|store|] == store
    ensures saved ==> o.reply.Saved? && o.store[|store|] == o.reply.scenario
    ensures saved ==> HasId(o.reply.scenario, id)
    ensures saved ==> o.reply == Saved(NewScenario(body, id, createdAt, updatedAt))
                      && o.store == store + [NewScenario(body, id, createdAt, updatedAt)]
    ensures !saved ==> o.store == store && o.reply == SaveFailed
  {
    var scenario := NewScenario(body, id, createdAt, updatedAt);
    if saved then
      assert (store + [scenario])[..|store|] == store;
      Outcome(store + [scenario], Saved(scenario))
    else Outcome(store, SaveFailed)
  }

  // ---------------------------------------------------------------------------
  // Update: PUT /:id

  /** `{...current, ...body, updatedAt, id}`: later sources win. */
  function Merged(current: Scenario, body: Scenario, id: string, updatedAt: string): Scenario
  {
    current + body + map[UpdatedAt := Str(updatedAt), Id := Str(id)]
  }

  /** The PUT route: the first record with the id is replaced by the merge of
      it with the body, and the array is written back. */
  function Update(store: seq<Scenario>, id: string, body: Scenario, updatedAt: string, saved: bool): (o: Outcome)
    ensures FindIndex(store, id).None? ==> o == Outcome(store, NotFound)
    ensures FindIndex(store, id).Some? && !saved ==> o == Outcome(store, SaveFailed)
    ensures FindIndex(store, id).Some? && saved ==>
              var i := FindIndex(store, id).value;
              && |o.store| == |store|
              && o.reply == Saved(Merged(store[i], body, id, updatedAt))
              && o.store[i] == o.reply.scenario
              && (forall j :: 0 <= j < |store| && j != i ==> o.store[j] == store[j])
  {
    match FindIndex(store, id)
    case None => Outcome(store, NotFound)
    case Some(i) =>
      if saved then
        Outcome(store[i := Merged(store[i], body, id, updatedAt)], Saved(Merged(store[i], body, id, updatedAt)))
      else Outcome(store, SaveFailed)
  }

  // ---------------------------------------------------------------------------
  // Delete: DELETE /:id

  /** `scenarios.filter(s => s.id !== id)`. */
  function RemoveId(store: seq<Scenario>, id: string): (r: seq<Scenario>)
    ensures |r| <= |store|
    ensures forall s :: s in r ==> s in store && !HasId(s, id)
    ensures forall s :: s in store && !HasId(s, id) ==> s in r
    ensures |r| == |store| <==> forall j :: 0 <= j < |store| ==> !HasId(store[j], id)
  {
    if |store| == 0 then []
    else
      assert store == [store[0]] + store[1..];
      (if HasId(store[0], id) then [] else [store[0]]) + RemoveId(store[1..], id)
  }

  /** The DELETE route: every record with the id is dropped; when none was,
      the route answers 404 and writes nothing. */
  function Delete(store: seq<Scenario>, id: string, saved: bool): (o: Outcome)
    ensures o.reply == NotFound <==> forall j :: 0 <= j < |store| ==> !HasId(store[j], id)
    ensures o.reply == Removed ==> saved && o.store == RemoveId(store, id) && |o.store| < |store|
    ensures o.reply != Removed ==> o.store == store
    ensures o.reply == SaveFailed <==> !saved && exists j :: 0 <= j < |store| && HasId(store[j], id)
    ensures saved && (exists j :: 0 <= j < |store| && HasId(store[j], id)) ==> o == Outcome(RemoveId(store, id), Removed)
  {
    var filtered := RemoveId(store, id);
    if |filtered| == |store| then Outcome(store, NotFound)
    else if saved then Outcome(filtered, Removed)
    else Outcome(store, SaveFailed)
  }

  // ---------------------------------------------------------------------------
  // Properties

  /** The new record carries the generated id and the two timestamps. */
  lemma CreateStamps(body: Scenario, id: string, createdAt: string, updatedAt: string)
    ensures HasId(NewScenario(body, id, createdAt, updatedAt), id)
    ensures NewScenario(body, id, createdAt, updatedAt)[CreatedAt] == Str(createdAt)
    ensures NewScenario(body, id, createdAt, updatedAt)[UpdatedAt] == Str(updatedAt)
  {
  }

  /** Every field the POST route defaults takes the body's value when that is
      truthy and the default otherwise: 0 for the amounts and the savings
      rate, an empty list of investments, 2 for inflation and 10 years. */
  lemma CreateDefaults(body: Scenario, id: string, createdAt: string, updatedAt: string, key: Key)
    requires key in {InitialAmount, MonthlyIncome, MonthlyExpenses, Investments, SavingsRate, InflationRate, Timeframe}
    ensures NewScenario(body, id, createdAt, updatedAt)[key]
            == if key in body && Truthy(body[key]) then body[key]
               else if key == Investments then Arr([])
               else if key == InflationRate then Number(2.0)
               else if key == Timeframe then Number(10.0)
               else Number(0.0)
  {
  }

  /** `name` and `description` are copied exactly when the body has them. */
  lemma CreateCopiesText(body: Scenario, id: string, createdAt: string, updatedAt: string, key: Key)
    requires key == Name || key == Description
    ensures key in NewScenario(body, id, createdAt, updatedAt) <==> key in body
    ensures key in body ==> NewScenario(body, id, createdAt, updatedAt)[key] == body[key]
  {
  }

  /** The new record has the named properties and no others. */
  lemma CreateKeys(body: Scenario, id: string, createdAt: string, updatedAt: string)
    ensures forall key :: key in NewScenario(body, id, createdAt, updatedAt) ==> !key.Other?
    ensures WellKeyed(NewScenario(body, id, createdAt, updatedAt))
  {
  }

  /** A zero inflation rate in the body is replaced by the default 2. */
  lemma ExplicitZeroInflationBecomesTwo(body: Scenario, id: string, createdAt: string, updatedAt: string)
    requires InflationRate in body && body[InflationRate] == Number(0.0)
    ensures NewScenario(body, id, createdAt, updatedAt)[InflationRate] == Number(2.0)
  {
  }

  /** A lookup never sees past the first record with the id: adding records
      after it does not change the answer. */
  lemma GetIgnoresTail(front: seq<Scenario>, back: seq<Scenario>, id: string)
    requires exists j :: 0 <= j < |front| && HasId(front[j], id)
    ensures Get(front + back, id) == Get(front, id)
  {
    var all := front + back;
    var i := FindIndex(front, id).value;
    assert all[i] == front[i];
    forall j | 0 <= j < i
      ensures !HasId(all[j], id)
    {
      assert all[j] == front[j];
    }
  }

  /** A lookup of an id that occurs nowhere in the front skips the front. */
  lemma GetSkipsFront(front: seq<Scenario>, back: seq<Scenario>, id: string)
    requires forall j :: 0 <= j < |front| ==> !HasId(front[j], id)
    ensures Get(front + back, id) == Get(back, id)
  {
    var all := front + back;
    if Get(back, id).Some? {
      var i := FindIndex(back, id).value;
      assert all[|front| + i] == back[i];
      forall j | 0 <= j < |front| + i
        ensures !HasId(all[j], id)
      {
        if j >= |front| {
          assert all[j] == back[j - |front|];
        }
      }
    } else {
      forall j | 0 <= j < |all|
        ensures !HasId(all[j], id)
      {
        if j >= |front| {
          assert all[j] == back[j - |front|];
        }
      }
    }
  }

  /** A lookup looks at the first record, then at the rest. */
  lemma GetCons(head: Scenario, tail: seq<Scenario>, id: string)
    ensures Get([head] + tail, id) == if HasId(head, id) then Some(head) else Get(tail, id)
  {
    var all := [head] + tail;
    assert all[0] == head;
    if !HasId(head, id) {
      GetSkipsFront([head], tail, id);
    }
  }

  /** After a successful create under a fresh id, looking that id up finds
      the new record, and every other id finds what it found before. */
  lemma CreateThenGet(store: seq<Scenario>, body: Scenario, id: string, createdAt: string, updatedAt: string,
                      other: string)
    requires forall j :: 0 <= j < |store| ==> !HasId(store[j], id)
    requires other != id
    ensures var o := Create(store, body, id, createdAt, updatedAt, true);
            && Get(o.store, id) == Some(o.reply.scenario)
            && Get(o.store, other) == Get(store, other)
  {
    var o := Create(store, body, id, createdAt, updatedAt, true);
    var s := o.reply.scenario;
    assert o.store == store + [s];
    GetSkipsFront(store, [s], id);
    assert [s][0] == s;
    if exists j :: 0 <= j < |store| && HasId(store[j], other) {
      GetIgnoresTail(store, [s], other);
    } else {
      GetSkipsFront(store, [s], other);
      assert !HasId(s, other);
    }
  }

  /** The merged record keeps the path id and the new timestamp, takes every
      other body field, and keeps every old field the body does not name. */
  lemma MergedFields(current: Scenario, body: Scenario, id: string, updatedAt: string)
    ensures var s := Merged(current, body, id, updatedAt);
            && HasId(s, id) && s[UpdatedAt] == Str(updatedAt)
            && s.Keys == current.Keys + body.Keys + {Id, UpdatedAt}
            && (forall k :: k in body && k != Id && k != UpdatedAt ==> s[k] == body[k])
            && (forall k :: k in current && k !in body && k != Id && k != UpdatedAt ==> s[k] == current[k])
  {
  }

  /** Merging well-keyed records gives a well-keyed record: an update never
      spells a property twice. */
  lemma MergedWellKeyed(current: Scenario, body: Scenario, id: string, updatedAt: string)
    requires WellKeyed(current) && WellKeyed(body)
    ensures WellKeyed(Merged(current, body, id, updatedAt))
  {
    MergedFields(current, body, id, updatedAt);
  }

  /** After a successful update, looking the id up finds the merged record,
      even when the body tried to change the id. */
  lemma UpdateThenGet(store: seq<Scenario>, id: string, body: Scenario, updatedAt: string)
    requires FindIndex(store, id).Some?
    ensures var o := Update(store, id, body, updatedAt, true);
            Get(o.store, id) == Some(o.reply.scenario)
  {
    var i := FindIndex(store, id).value;
    var o := Update(store, id, body, updatedAt, true);
    assert HasId(o.store[i], id);
    assert forall j :: 0 <= j < i ==> o.store[j] == store[j];
  }

  /** An unknown id leaves the store exactly as it was, for update and for
      delete alike. */
  lemma UnknownIdChangesNothing(store: seq<Scenario>, id: string, body: Scenario, updatedAt: string, saved: bool)
    requires forall j :: 0 <= j < |store| ==> !HasId(store[j], id)
    ensures Update(store, id, body, updatedAt, saved) == Outcome(store, NotFound)
    ensures Delete(store, id, saved) == Outcome(store, NotFound)
  {
  }

  /** Concatenation of records is associative; kept as a lemma of its own
      so that the filter lemmas below can use it without unfolding the
      filter's contract next to it. */
  lemma AppendAssociative(x: seq<Scenario>, y: seq<Scenario>, z: seq<Scenario>)
    ensures x + (y + z) == (x + y) + z
  {
  }

  /** One step of the filter: the first record survives exactly when it
      does not hold the id. */
  lemma RemoveIdCons(head: Scenario, rest: seq<Scenario>, id: string)
    ensures RemoveId([head] + rest, id) == (if HasId(head, id) then [] else [head]) + RemoveId(rest, id)
  {
    assert ([head] + rest)[0] == head;
    assert ([head] + rest)[1..] == rest;
  }

  /** The filter works piece by piece, so it keeps the surviving records in
      their original order. */
  lemma {:induction false} RemoveIdAppend(a: seq<Scenario>, b: seq<Scenario>, id: string)
    ensures RemoveId(a + b, id) == RemoveId(a, id) + RemoveId(b, id)
  {
    if |a| == 0 {
      assert a + b == b;
    } else {
      var head := a[0];
      var rest := a[1..];
      var kept := if HasId(head, id) then [] else [head];
      assert a == [head] + rest;
      assert a + b == [head] + (rest + b);
      RemoveIdCons(head, rest + b, id);
      RemoveIdCons(head, rest, id);
      RemoveIdAppend(rest, b, id);
      AppendAssociative(kept, RemoveId(rest, id), RemoveId(b, id));
    }
  }

  /** Removing twice removes nothing more. */
  lemma {:induction false} RemoveIdIdempotent(store: seq<Scenario>, id: string)
    ensures RemoveId(RemoveId(store, id), id) == RemoveId(store, id)
  {
    if |store| > 0 {
      RemoveIdIdempotent(store[1..], id);
      RemoveIdAppend(if HasId(store[0], id) then [] else [store[0]], RemoveId(store[1..], id), id);
    }
  }

  /** After a delete the id is gone. */
  lemma DeleteThenGet(store: seq<Scenario>, id: string)
    ensures Get(RemoveId(store, id), id).None?
  {
  }

  /** A delete leaves every other id found just as before. */
  lemma {:induction false} DeleteKeepsOthers(store: seq<Scenario>, id: string, other: string)
    requires other != id
    ensures Get(RemoveId(store, id), other) == Get(store, other)
  {
    if |store| > 0 {
      var head := store[0];
      var rest := store[1..];
      DeleteKeepsOthers(rest, id, other);
      assert store == [head] + rest;
      GetCons(head, rest, other);
      if HasId(head, id) {
        assert !HasId(head, other);
        assert RemoveId(store, id) == RemoveId(rest, id);
      } else {
        assert RemoveId(store, id) == [head] + RemoveId(rest, id);
        GetCons(head, RemoveId(rest, id), other);
      }
    }
  }
}
