/** One field's controller (`Field` in src/Field.tsx): its state record, the
    transitions `setState` makes on it, and the change notifications that
    `componentDidUpdate` emits after each transition. */
module Fields {
  import opened JsValues

  /** A field's `this.state`: `value`, `error`, an optional `schema`, and
      whatever extra props were merged in. */
  type State = Record

  /** The `type` of a change notification: `'value'` or `'error'`. */
  datatype ChangeType = ValueChange | ErrorChange

  /** A call `broadcast(name, type)` made by a field after a transition. */
  datatype Change = Change(name: string, kind: ChangeType)

  /** How the promise of `schema.validate(value)` settles: it resolves; it
      rejects with an error whose `errors` list is given; or it rejects with
      something that has no `errors` list, so that reading `err.errors[0]`
      throws inside the rejection handler and no state is set. */
  datatype Verdict = Accept | Reject(errors: seq<JsVal>) | RejectMalformed

  /** `schema.validate` as an oracle: (schema object, value) to its verdict. */
  type SchemaCheck = (JsVal, JsVal) -> Verdict

  /** A new `value` merged into the state: only `value` changes. */
  function SetValueState(s: State, v: JsVal): (r: State)
    ensures Get(r, "value") == v
    ensures forall k :: k != "value" ==> Get(r, k) == Get(s, k)
  {
    Spread(s, map["value" := v])
  }

  /** A new `error` merged into the state: only `error` changes. */
  function SetErrorState(s: State, e: JsVal): (r: State)
    ensures Get(r, "error") == e
    ensures forall k :: k != "error" ==> Get(r, k) == Get(s, k)
  {
    Spread(s, map["error" := e])
  }

  /** The state `update(newState)` sets: the new props are merged in, but
      `value` and `error` are pinned to what they were, even when `p` has
      those keys. */
  function UpdateState(s: State, p: Record): (r: State)
    ensures Get(r, "value") == Get(s, "value")
    ensures Get(r, "error") == Get(s, "error")
    ensures forall k :: k != "value" && k != "error" ==> Get(r, k) == if k in p then p[k] else Get(s, k)
  {
    Spread(Spread(s, p), map["value" := Get(s, "value"), "error" := Get(s, "error")])
  }

  /** `err.errors[0]`: the first message, or `undefined` for an empty list. */
  function FirstError(errors: seq<JsVal>): JsVal {
    if |errors| == 0 then Undefined else errors[0]
  }

  /** The state once `validate()` has settled. Without a (truthy) schema
      nothing happens; on success `error` is cleared; on a rejection `error`
      becomes the first message. Nothing but `error` ever changes. */
  function ValidatedState(s: State, check: SchemaCheck): (r: State)
    ensures forall k :: k != "error" ==> Get(r, k) == Get(s, k)
    ensures !Truthy(Get(s, "schema")) ==> r == s
    ensures var v := check(Get(s, "schema"), Get(s, "value"));
      Truthy(Get(s, "schema")) && v.Accept? ==> Get(r, "error") == Undefined
    ensures var v := check(Get(s, "schema"), Get(s, "value"));
      Truthy(Get(s, "schema")) && v.Reject? && |v.errors| > 0 ==> Get(r, "error") == v.errors[0]
    ensures var v := check(Get(s, "schema"), Get(s, "value"));
      Truthy(Get(s, "schema")) && v.Reject? && |v.errors| == 0 ==> Get(r, "error") == Undefined
    ensures var v := check(Get(s, "schema"), Get(s, "value"));
      Truthy(Get(s, "schema")) && v.RejectMalformed? ==> r == s
  {
    var schema := Get(s, "schema");
    if !Truthy(schema) then s
    else
      match check(schema, Get(s, "value"))
      case Accept => Spread(s, map["error" := Undefined])
      case Reject(errors) => Spread(s, map["error" := FirstError(errors)])
      case RejectMalformed => s
  }

  /** What `componentDidUpdate` broadcasts after a transition from `prev` to
      `cur`: `'value'` exactly when `value` changed, `'error'` exactly when
      `error` changed, `'value'` first, and nothing otherwise. */
  function Notifications(name: string, prev: State, cur: State): (r: seq<Change>)
    ensures Change(name, ValueChange) in r <==> Get(prev, "value") != Get(cur, "value")
    ensures Change(name, ErrorChange) in r <==> Get(prev, "error") != Get(cur, "error")
    ensures forall c | c in r :: c.name == name
    ensures |r| <= 2
    ensures |r| == 2 ==> r[0].kind == ValueChange && r[1].kind == ErrorChange
    ensures r == [] <==> Get(prev, "value") == Get(cur, "value") && Get(prev, "error") == Get(cur, "error")
  {
    (if Get(prev, "value") != Get(cur, "value") then [Change(name, ValueChange)] else [])
    + (if Get(prev, "error") != Get(cur, "error") then [Change(name, ErrorChange)] else [])
  }

  /** A field controller. Each `setState` is taken as synchronous, and each
      method returns the notifications its transitions emit, in order. */
  class Field {
    const name: string
    var state: State

    /** The initial state comes from the props and is taken wholesale. */
    constructor (name: string, initialState: State)
      ensures this.name == name
      ensures state == initialState
    {
      this.name := name;
      state := initialState;
    }

    /** `getValue()`: a key the state lacks reads as `undefined`. */
    function GetValue(): (v: JsVal)
      reads this
      ensures "value" in state ==> v == state["value"]
      ensures "value" !in state ==> v == Undefined
    {
      Get(state, "value")
    }

    /** `getError()`: a key the state lacks reads as `undefined`. */
    function GetError(): (e: JsVal)
      reads this
      ensures "error" in state ==> e == state["error"]
      ensures "error" !in state ==> e == Undefined
    {
      Get(state, "error")
    }

    /** `validate()`, with the schema's promise settled. */
    method Validate(check: SchemaCheck) returns (emitted: seq<Change>)
      modifies this
      ensures state == ValidatedState(old(state), check)
      ensures GetValue() == old(GetValue())
      ensures emitted == Notifications(name, old(state), state)
    {
      var before := state;
      state := ValidatedState(state, check);
      emitted := Notifications(name, before, state);
    }

    /** `update(newState)`: merge props, pinning `value` and `error`. A second
        argument is not taken, so a callback handed to it never runs. */
    method Update(p: Record) returns (emitted: seq<Change>)
      modifies this
      ensures state == UpdateState(old(state), p)
      ensures GetValue() == old(GetValue()) && GetError() == old(GetError())
      ensures emitted == []
    {
      var before := state;
      state := UpdateState(state, p);
      emitted := Notifications(name, before, state);
    }

    /** `initState(newState)`: a shallow merge, so keys that `p` omits keep
        their previous values. */
    method InitState(p: Record) returns (emitted: seq<Change>)
      modifies this
      ensures state == Spread(old(state), p)
      ensures forall k | k in p :: state[k] == p[k]
      ensures forall k | k !in p :: Get(state, k) == Get(old(state), k)
      ensures emitted == Notifications(name, old(state), state)
    {
      var before := state;
      state := Spread(state, p);
      emitted := Notifications(name, before, state);
    }

    /** `onChange(value)`: set the value, then validate the new value. */
    method OnChange(value: JsVal, check: SchemaCheck) returns (emitted: seq<Change>)
      modifies this
      ensures state == ValidatedState(SetValueState(old(state), value), check)
      ensures GetValue() == value
      ensures emitted == Notifications(name, old(state), SetValueState(old(state), value))
                         + Notifications(name, SetValueState(old(state), value), state)
    {
      var first := SetValue(value);
      var second := Validate(check);
      emitted := first + second;
    }

    /** `onBlur()`: validate without touching the value. */
    method OnBlur(check: SchemaCheck) returns (emitted: seq<Change>)
      modifies this
      ensures state == ValidatedState(old(state), check)
      ensures GetValue() == old(GetValue())
      ensures emitted == Notifications(name, old(state), state)
    {
      emitted := Validate(check);
    }

    /** `setValue(value)`: only `value` changes; no validation runs. */
    method SetValue(value: JsVal) returns (emitted: seq<Change>)
      modifies this
      ensures state == SetValueState(old(state), value)
      ensures emitted == Notifications(name, old(state), state)
      ensures emitted == if old(GetValue()) == value then [] else [Change(name, ValueChange)]
    {
      var before := state;
      state := SetValueState(state, value);
      emitted := Notifications(name, before, state);
    }

    /** `setError(error)`: only `error` changes. */
    method SetError(error: JsVal) returns (emitted: seq<Change>)
      modifies this
      ensures state == SetErrorState(old(state), error)
      ensures emitted == Notifications(name, old(state), state)
      ensures emitted == if old(GetError()) == error then [] else [Change(name, ErrorChange)]
    {
      var before := state;
      state := SetErrorState(state, error);
      emitted := Notifications(name, before, state);
    }
  }
}
