/** The pure side of the form controller (src/Form.tsx): the reductions over
    the field registry (`getValues`, `getErrors`, `getFormProp`, `isValid`),
    the configuration, and, as functions over a snapshot of every field's
    state, what one step of `broadcast`, `submitForm`, `resetForm` and
    `updateAllFields` does to the form. */
module FormState {
  import opened JsValues
  import opened Fields

  /** The `{ name, type }` argument an `effect` receives. */
  datatype Trigger = Trigger(name: string, kind: ChangeType)

  /** `getFormProp()`: `{ values, errors }`. */
  datatype FormProp = FormProp(values: Record, errors: Record)

  /** One call an `effect` makes on the mutable snapshot it receives:
      `setValue(name, value)`, `setError(name, error)`, `validateField(name)`. */
  datatype Mutation =
    | SetValueOf(target: string, value: JsVal)
    | SetErrorOf(target: string, error: JsVal)
    | ValidateOf(target: string)

  /** A field's entry in the configuration. An `effect` is caller code; it is
      modelled by the calls it makes on the mutable snapshot, in order. */
  datatype FieldConfig = FieldConfig(
    props: (JsVal, FormProp) -> Record,
    deps: Option<seq<string>>,
    initState: Option<JsVal -> Record>,
    effect: Option<(JsVal, FormProp, Trigger) -> seq<Mutation>>,
    transform: Option<(JsVal, FormProp, JsVal) -> JsVal>)

  /** Every field's state by name: `Some` when its ref is mounted, `None` when
      `ref.current` is null. */
  type Slots = map<string, Option<State>>

  /** The form's props: the configuration (its names in `Object.entries`
      order), the context, the `applyProps` hook and the schema oracle. */
  datatype Env = Env(
    names: seq<string>,
    config: map<string, FieldConfig>,
    context: JsVal,
    applyProps: Option<(string, FieldConfig) -> Option<Record>>,
    check: SchemaCheck)

  lemma AppendAssoc<T>(a: seq<T>, b: seq<T>, c: seq<T>)
    ensures a + (b + c) == (a + b) + c
  {
  }

  predicate Distinct(s: seq<string>) {
    forall i, j | 0 <= i < j < |s| :: s[i] != s[j]
  }

  predicate TargetsKnown(muts: seq<Mutation>, config: map<string, FieldConfig>) {
    forall m | m in muts :: m.target in config
  }

  /** The configuration an object literal gives: each name once, in order. */
  ghost predicate WellFormed(names: seq<string>, config: map<string, FieldConfig>) {
    Distinct(names) && forall n :: n in names <==> n in config
  }

  /** Every effect names only configured fields in its calls:
      looking up the ref of any other name throws. */
  ghost predicate EffectsStayInForm(config: map<string, FieldConfig>) {
    forall n, ctx, fp, t | n in config && config[n].effect.Some? ::
      TargetsKnown(config[n].effect.value(ctx, fp, t), config)
  }

  /** `fieldRefs` holds exactly the configured names. */
  ghost predicate Shaped(env: Env, slots: Slots) {
    WellFormed(env.names, env.config) && slots.Keys == env.config.Keys
  }

  /** The names in registry order and the registry agree. */
  ghost predicate RegistryOk(names: seq<string>, slots: Slots) {
    Distinct(names) && forall n :: n in names <==> n in slots
  }

  predicate Mounted(slots: Slots, name: string) {
    name in slots && slots[name].Some?
  }

  // ---------------------------------------------------------------------
  // Reductions over the registry

  predicate Picks(slots: Slots, k: string, pick: (string, State) -> Option<JsVal>) {
    Mounted(slots, k) && pick(k, slots[k].value).Some?
  }

  /** `Object.entries(fieldRefs).reduce(...)`: entries in order; an unmounted
      ref is skipped, a mounted one is written when `pick` gives a value. */
  function Collect(acc: Record, todo: seq<string>, slots: Slots, pick: (string, State) -> Option<JsVal>): Record
    requires forall n | n in todo :: n in slots
    decreases |todo|
  {
    if todo == [] then acc
    else
      var n := todo[0];
      var next := if Picks(slots, n, pick) then acc[n := pick(n, slots[n].value).value] else acc;
      Collect(next, todo[1..], slots, pick)
  }

  /** The reduction keeps exactly the picked entries, each with its value. */
  lemma {:induction false} CollectSpec(acc: Record, todo: seq<string>, slots: Slots, pick: (string, State) -> Option<JsVal>)
    requires forall n | n in todo :: n in slots
    requires Distinct(todo)
    decreases |todo|
    ensures var r := Collect(acc, todo, slots, pick);
      && (forall k :: k in r <==> k in acc || (k in todo && Picks(slots, k, pick)))
      && (forall k | k in todo && Picks(slots, k, pick) :: r[k] == pick(k, slots[k].value).value)
      && (forall k | k in acc && k !in todo :: r[k] == acc[k])
  {
    if todo != [] {
      var n := todo[0];
      var next := if Picks(slots, n, pick) then acc[n := pick(n, slots[n].value).value] else acc;
      assert Distinct(todo[1..]) by {
        forall i, j | 0 <= i < j < |todo[1..]| ensures todo[1..][i] != todo[1..][j] {
          assert todo[1..][i] == todo[i + 1] && todo[1..][j] == todo[j + 1];
        }
      }
      assert n !in todo[1..] by {
        forall i | 0 <= i < |todo[1..]| ensures todo[1..][i] != n {
          assert todo[1..][i] == todo[i + 1];
        }
      }
      assert forall k :: k in todo <==> k == n || k in todo[1..] by {
        assert todo == [n] + todo[1..];
      }
      CollectSpec(next, todo[1..], slots, pick);
    }
  }

  /** `getValues()`: every mounted field mapped to its current `value`. */
  function Values(names: seq<string>, slots: Slots): (r: Record)
    requires RegistryOk(names, slots)
    ensures forall k | k in r :: Mounted(slots, k) && r[k] == Get(slots[k].value, "value")
    ensures forall k | Mounted(slots, k) :: k in r
  {
    var pick := (n: string, s: State) => Some(Get(s, "value"));
    CollectSpec(map[], names, slots, pick);
    Collect(map[], names, slots, pick)
  }

  /** `getErrors()`: every mounted field whose `error` is not `undefined`,
      mapped to that error. */
  function Errors(names: seq<string>, slots: Slots): (r: Record)
    requires RegistryOk(names, slots)
    ensures forall k | k in r :: Mounted(slots, k) && r[k] == Get(slots[k].value, "error") && r[k] != Undefined
    ensures forall k | Mounted(slots, k) && Get(slots[k].value, "error") != Undefined :: k in r
  {
    var pick := (n: string, s: State) => if Get(s, "error") == Undefined then None else Some(Get(s, "error"));
    CollectSpec(map[], names, slots, pick);
    Collect(map[], names, slots, pick)
  }

  /** `getFormProp()`. */
  function FormPropOf(names: seq<string>, slots: Slots): FormProp
    requires RegistryOk(names, slots)
  {
    FormProp(Values(names, slots), Errors(names, slots))
  }

  /** One field's entry in `getValues(true)`. */
  function TransformValue(env: Env, fp: FormProp, n: string, v: JsVal): JsVal {
    if n in env.config && env.config[n].transform.Some? then env.config[n].transform.value(env.context, fp, v)
    else v
  }

  /** `getValues(true)`: every mounted field mapped to
      `transform(context, getFormProp(), value)` when it has a transform and
      to its raw value otherwise. */
  function TransformedValues(env: Env, slots: Slots): (r: Record)
    requires Shaped(env, slots)
    ensures forall k | Mounted(slots, k) :: k in r
    ensures forall k | k in r ::
      && Mounted(slots, k)
      && k in env.config
      && r[k] == (match env.config[k].transform
                  case Some(f) => f(env.context, FormPropOf(env.names, slots), Get(slots[k].value, "value"))
                  case None => Get(slots[k].value, "value"))
  {
    var fp := FormPropOf(env.names, slots);
    var pick := (n: string, s: State) => Some(TransformValue(env, fp, n, Get(s, "value")));
    CollectSpec(map[], env.names, slots, pick);
    Collect(map[], env.names, slots, pick)
  }

  /** `isValid()`: no entry of `getErrors()` is defined. */
  predicate NoDefinedError(errors: Record) {
    !(exists k | k in errors :: errors[k] != Undefined)
  }

  /** `isValid()` holds iff `getErrors()` is empty, iff no mounted field has
      a defined error. */
  lemma ValidIffNoErrors(names: seq<string>, slots: Slots)
    requires RegistryOk(names, slots)
    ensures NoDefinedError(Errors(names, slots)) <==> Errors(names, slots) == map[]
    ensures NoDefinedError(Errors(names, slots))
            <==> forall k | Mounted(slots, k) :: Get(slots[k].value, "error") == Undefined
  {
    var e := Errors(names, slots);
    if NoDefinedError(e) {
      assert e.Keys == {};
    }
  }

  // ---------------------------------------------------------------------
  // One field's transition, seen from the form

  /** The field operations the form invokes through a ref. */
  datatype FieldOp = SetValueOp(v: JsVal) | SetErrorOp(e: JsVal) | ValidateOp | UpdateOp(p: Record) | InitOp(p: Record)

  function ApplyOp(s: State, op: FieldOp, check: SchemaCheck): State {
    match op
    case SetValueOp(v) => SetValueState(s, v)
    case SetErrorOp(e) => SetErrorState(s, e)
    case ValidateOp => ValidatedState(s, check)
    case UpdateOp(p) => UpdateState(s, p)
    case InitOp(p) => Spread(s, p)
  }

  /** A per-name operation of the form applied to one field: nothing
      changes when the ref is unmounted, and only the named field changes
      otherwise. */
  function TouchSlots(slots: Slots, name: string, op: FieldOp, check: SchemaCheck): (r: Slots)
    ensures r.Keys == slots.Keys
    ensures forall k | k in slots && k != name :: r[k] == slots[k]
    ensures Mounted(slots, name) ==> r[name] == Some(ApplyOp(slots[name].value, op, check))
    ensures !Mounted(slots, name) ==> r == slots
  {
    if Mounted(slots, name) then slots[name := Some(ApplyOp(slots[name].value, op, check))] else slots
  }

  /** The notifications that transition emits. */
  function TouchEmits(slots: Slots, name: string, op: FieldOp, check: SchemaCheck): seq<Change> {
    if Mounted(slots, name) then Notifications(name, slots[name].value, ApplyOp(slots[name].value, op, check)) else []
  }

  /** `applyProps(name, config[name])`, or nothing: spreading `undefined`
      adds no key. */
  function ExtraProps(env: Env, name: string): Record
    requires name in env.config
  {
    if env.applyProps.Some? then env.applyProps.value(name, env.config[name]).GetOr(map[]) else map[]
  }

  /** The props `updateField` hands to `update`: the field's `props(context,
      getFormProp())`, with the keys of `applyProps` overriding them. */
  function PropsFor(env: Env, name: string, fp: FormProp): (r: Record)
    requires name in env.config
    ensures r.Keys == env.config[name].props(env.context, fp).Keys + ExtraProps(env, name).Keys
    ensures forall k | k in ExtraProps(env, name) :: r[k] == ExtraProps(env, name)[k]
    ensures forall k | k !in ExtraProps(env, name) :: Get(r, k) == Get(env.config[name].props(env.context, fp), k)
  {
    Spread(env.config[name].props(env.context, fp), ExtraProps(env, name))
  }

  /** The entry's `initState` applied to the context, or the empty object
      when the entry has none. */
  function InitialState(c: FieldConfig, context: JsVal): Record {
    if c.initState.Some? then c.initState.value(context) else map[]
  }

  /** A run of field transitions: the final registry and the notifications
      emitted on the way, in order. */
  datatype Run = Run(slots: Slots, emitted: seq<Change>)

  function MutationOp(m: Mutation): FieldOp {
    match m
    case SetValueOf(_, v) => SetValueOp(v)
    case SetErrorOf(_, e) => SetErrorOp(e)
    case ValidateOf(_) => ValidateOp
  }

  /** An effect's calls on the mutable snapshot, applied in order. */
  function RunMutations(slots: Slots, muts: seq<Mutation>, check: SchemaCheck): Run
    decreases |muts|
  {
    if muts == [] then Run(slots, [])
    else
      var m := muts[0];
      var rest := RunMutations(TouchSlots(slots, m.target, MutationOp(m), check), muts[1..], check);
      Run(rest.slots, TouchEmits(slots, m.target, MutationOp(m), check) + rest.emitted)
  }

  /** Unfolding one call of an effect, at position `j`. */
  lemma RunMutationsAt(slots: Slots, muts: seq<Mutation>, j: nat, check: SchemaCheck)
    requires j < |muts|
    ensures var m := muts[j];
      var next := TouchSlots(slots, m.target, MutationOp(m), check);
      RunMutations(slots, muts[j..], check)
        == Run(RunMutations(next, muts[j + 1..], check).slots,
               TouchEmits(slots, m.target, MutationOp(m), check) + RunMutations(next, muts[j + 1..], check).emitted)
  {
    assert muts[j..][0] == muts[j] && muts[j..][1..] == muts[j + 1..];
  }

  /** An effect changes no field it does not name, and no field's mount. */
  lemma {:induction false} MutationsTouchOnlyTargets(slots: Slots, muts: seq<Mutation>, check: SchemaCheck)
    ensures var r := RunMutations(slots, muts, check).slots;
      && r.Keys == slots.Keys
      && (forall k | k in slots :: Mounted(r, k) == Mounted(slots, k))
      && (forall k | k in slots && (forall m | m in muts :: m.target != k) :: r[k] == slots[k])
  {
    if muts != [] {
      var m := muts[0];
      MutationsTouchOnlyTargets(TouchSlots(slots, m.target, MutationOp(m), check), muts[1..], check);
      assert forall x | x in muts[1..] :: x in muts;
    }
  }

  // ---------------------------------------------------------------------
  // forEach over the configured names

  /** `updateAllFields`, `resetForm` and `submitForm`'s validation loop each
      apply one per-field operation to every name in turn. */
  datatype Action = UpdateAction | ResetAction | ValidateAction

  /** The operation an action applies to `name`: `updateField` computes props
      from the current snapshot; `resetField` merges `initState(context)`;
      `validateField` validates. */
  function ActionOp(env: Env, slots: Slots, name: string, action: Action): FieldOp
    requires Shaped(env, slots) && name in env.config
  {
    match action
    case UpdateAction => UpdateOp(PropsFor(env, name, FormPropOf(env.names, slots)))
    case ResetAction => InitOp(InitialState(env.config[name], env.context))
    case ValidateAction => ValidateOp
  }

  function ForEachField(env: Env, slots: Slots, todo: seq<string>, action: Action): Run
    requires Shaped(env, slots) && forall n | n in todo :: n in env.config
    decreases |todo|
  {
    if todo == [] then Run(slots, [])
    else
      var n := todo[0];
      var op := ActionOp(env, slots, n, action);
      var rest := ForEachField(env, TouchSlots(slots, n, op, env.check), todo[1..], action);
      Run(rest.slots, TouchEmits(slots, n, op, env.check) + rest.emitted)
  }

  /** What remains of a `forEach` over the configured names once the first
      `i` are done. */
  function ForEachFrom(env: Env, slots: Slots, i: nat, action: Action): Run
    requires Shaped(env, slots) && i <= |env.names|
  {
    assert forall n | n in env.names[i..] :: n in env.names;
    ForEachField(env, slots, env.names[i..], action)
  }

  /** One more name done. */
  lemma ForEachFromAt(env: Env, slots: Slots, i: nat, action: Action)
    requires Shaped(env, slots) && i < |env.names|
    ensures env.names[i] in env.config
    ensures var op := ActionOp(env, slots, env.names[i], action);
      var next := TouchSlots(slots, env.names[i], op, env.check);
      && ForEachFrom(env, slots, i, action).slots == ForEachFrom(env, next, i + 1, action).slots
      && ForEachFrom(env, slots, i, action).emitted
         == TouchEmits(slots, env.names[i], op, env.check) + ForEachFrom(env, next, i + 1, action).emitted
  {
    var todo := env.names;
    assert todo[i] in todo;
    assert forall n | n in todo[i..] :: n in todo;
    assert todo[i..][0] == todo[i] && todo[i..][1..] == todo[i + 1..];
  }

  /** The whole loop, and the loop with nothing left. */
  lemma ForEachFromEnds(env: Env, slots: Slots, action: Action)
    requires Shaped(env, slots)
    ensures ForEachFrom(env, slots, 0, action) == ForEachField(env, slots, env.names, action)
    ensures ForEachFrom(env, slots, |env.names|, action) == Run(slots, [])
  {
    assert env.names[0..] == env.names;
    assert env.names[|env.names|..] == [];
  }

  /** Resetting or validating every name gives each mounted field exactly
      its own transition, whatever the order: `resetForm` applies
      `resetField` to every configured name. */
  lemma {:induction false} ForEachIsPerField(env: Env, slots: Slots, todo: seq<string>, action: Action)
    requires Shaped(env, slots) && (forall n | n in todo :: n in env.config) && Distinct(todo)
    requires action != UpdateAction
    ensures var r := ForEachField(env, slots, todo, action).slots;
      && r.Keys == slots.Keys
      && forall k | k in slots ::
           r[k] == if k in todo && Mounted(slots, k) then Some(ApplyOp(slots[k].value, ActionOp(env, slots, k, action), env.check))
                   else slots[k]
  {
    if todo != [] {
      var n := todo[0];
      var next := TouchSlots(slots, n, ActionOp(env, slots, n, action), env.check);
      assert Distinct(todo[1..]) by {
        forall i, j | 0 <= i < j < |todo[1..]| ensures todo[1..][i] != todo[1..][j] {
          assert todo[1..][i] == todo[i + 1] && todo[1..][j] == todo[j + 1];
        }
      }
      assert n !in todo[1..] by {
        forall i | 0 <= i < |todo[1..]| ensures todo[1..][i] != n {
          assert todo[1..][i] == todo[i + 1];
        }
      }
      assert forall k :: k in todo <==> k == n || k in todo[1..] by {
        assert todo == [n] + todo[1..];
      }
      ForEachIsPerField(env, next, todo[1..], action);
    }
  }

  /** `submitForm`'s loop: every mounted field is validated against its own
      previous state, and unmounted slots stay unmounted. */
  lemma ValidateAllIsPerField(env: Env, slots: Slots)
    requires Shaped(env, slots)
    ensures var r := ForEachField(env, slots, env.names, ValidateAction).slots;
      && r.Keys == slots.Keys
      && (forall k | k in slots && !Mounted(slots, k) :: r[k] == None)
      && (forall k | Mounted(slots, k) :: r[k] == Some(ValidatedState(slots[k].value, env.check)))
  {
    ForEachIsPerField(env, slots, env.names, ValidateAction);
  }

  /** `resetForm`'s loop: every mounted field's state is merged with its
      entry's `initState`, and unmounted slots stay unmounted. */
  lemma ResetAllIsPerField(env: Env, slots: Slots)
    requires Shaped(env, slots)
    ensures var r := ForEachField(env, slots, env.names, ResetAction).slots;
      && r.Keys == slots.Keys
      && (forall k | k in slots && !Mounted(slots, k) :: r[k] == None)
      && (forall k | Mounted(slots, k) :: r[k] == Some(Spread(slots[k].value, InitialState(env.config[k], env.context))))
  {
    ForEachIsPerField(env, slots, env.names, ResetAction);
  }

  /** `after` has the same refs as `before`, the same mounts, and every
      mounted field keeps its value and its error. */
  predicate KeepsPins(before: Slots, after: Slots) {
    && after.Keys == before.Keys
    && (forall k | k in before :: Mounted(after, k) == Mounted(before, k))
    && (forall k | k in before && Mounted(before, k) ::
          && Get(after[k].value, "value") == Get(before[k].value, "value")
          && Get(after[k].value, "error") == Get(before[k].value, "error"))
  }

  lemma KeepsPinsTrans(a: Slots, b: Slots, c: Slots)
    requires KeepsPins(a, b) && KeepsPins(b, c)
    ensures KeepsPins(a, c)
  {
  }

  /** `updateField` on one name: value, error and mount are kept, and the
      transition emits nothing. */
  lemma UpdatePins(slots: Slots, n: string, p: Record, check: SchemaCheck)
    ensures TouchEmits(slots, n, UpdateOp(p), check) == []
    ensures KeepsPins(slots, TouchSlots(slots, n, UpdateOp(p), check))
  {
  }

  /** `updateAllFields` (on a context change, and the deferred first prop
      computation after mount) never changes a value or an error, never
      changes which refs are mounted, and so emits no notification. */
  lemma {:induction false} UpdateAllKeepsValuesAndErrors(env: Env, slots: Slots, todo: seq<string>)
    requires Shaped(env, slots) && forall n | n in todo :: n in env.config
    ensures ForEachField(env, slots, todo, UpdateAction).emitted == []
    ensures KeepsPins(slots, ForEachField(env, slots, todo, UpdateAction).slots)
  {
    if todo != [] {
      var n := todo[0];
      var p := PropsFor(env, n, FormPropOf(env.names, slots));
      var next := TouchSlots(slots, n, UpdateOp(p), env.check);
      UpdatePins(slots, n, p, env.check);
      UpdateAllKeepsValuesAndErrors(env, next, todo[1..]);
      KeepsPinsTrans(slots, next, ForEachField(env, next, todo[1..], UpdateAction).slots);
    }
  }

  /** When no value, error or mount changes, the `getFormProp()` snapshot
      does not change either. */
  lemma SnapshotKept(names: seq<string>, a: Slots, b: Slots)
    requires RegistryOk(names, a) && KeepsPins(a, b)
    ensures RegistryOk(names, b)
    ensures FormPropOf(names, b) == FormPropOf(names, a)
  {
    ValuesKept(names, a, b);
    ErrorsKept(names, a, b);
  }

  lemma ValuesKept(names: seq<string>, a: Slots, b: Slots)
    requires RegistryOk(names, a) && KeepsPins(a, b)
    ensures RegistryOk(names, b) && Values(names, b) == Values(names, a)
  {
    var va, vb := Values(names, a), Values(names, b);
    forall k ensures k in vb <==> k in va {
      if k in a {
        assert Mounted(b, k) == Mounted(a, k);
      }
    }
  }

  lemma ErrorsKept(names: seq<string>, a: Slots, b: Slots)
    requires RegistryOk(names, a) && KeepsPins(a, b)
    ensures RegistryOk(names, b) && Errors(names, b) == Errors(names, a)
  {
    var ea, eb := Errors(names, a), Errors(names, b);
    forall k ensures k in eb <==> k in ea {
      if k in a {
        assert Mounted(b, k) == Mounted(a, k);
      }
    }
  }

  /** Dropping the head of distinct names leaves distinct names without it. */
  lemma DistinctTail(todo: seq<string>)
    requires todo != [] && Distinct(todo)
    ensures Distinct(todo[1..]) && todo[0] !in todo[1..]
    ensures forall k :: k in todo <==> k == todo[0] || k in todo[1..]
  {
    forall i, j | 0 <= i < j < |todo[1..]| ensures todo[1..][i] != todo[1..][j] {
      assert todo[1..][i] == todo[i + 1] && todo[1..][j] == todo[j + 1];
    }
    forall i | 0 <= i < |todo[1..]| ensures todo[1..][i] != todo[0] {
      assert todo[1..][i] == todo[i + 1];
    }
    assert todo == [todo[0]] + todo[1..];
  }

  /** `updateAllFields` over distinct names: every mounted field among them
      ends with the props computed from the snapshot taken before the pass
      merged in. The snapshot never moves during the pass, because an
      update keeps every value, error and mount. */
  lemma {:induction false} UpdateAllSetsProps(env: Env, slots: Slots, todo: seq<string>)
    requires Shaped(env, slots) && (forall n | n in todo :: n in env.config) && Distinct(todo)
    ensures ForEachField(env, slots, todo, UpdateAction).slots.Keys == slots.Keys
    ensures forall k | Mounted(slots, k) && k in todo ::
      ForEachField(env, slots, todo, UpdateAction).slots[k]
        == Some(UpdateState(slots[k].value, PropsFor(env, k, FormPropOf(env.names, slots))))
  {
    if todo != [] {
      var n := todo[0];
      var fp := FormPropOf(env.names, slots);
      var next := TouchSlots(slots, n, UpdateOp(PropsFor(env, n, fp)), env.check);
      assert ForEachField(env, slots, todo, UpdateAction).slots == ForEachField(env, next, todo[1..], UpdateAction).slots;
      UpdatePins(slots, n, PropsFor(env, n, fp), env.check);
      SnapshotKept(env.names, slots, next);
      DistinctTail(todo);
      ForEachTouchesOnlyTodo(env, next, todo[1..], UpdateAction);
      UpdateAllSetsProps(env, next, todo[1..]);
      PropsSetAfterHead(env, slots, next, ForEachField(env, next, todo[1..], UpdateAction).slots, todo, env.config.Keys, fp);
    }
  }

  /** The inductive step of `UpdateAllSetsProps` and `CascadeSetsProps`,
      stated over the slots `r` the rest of the pass ends with: the head of
      `todo`, a selected name, was updated first and the rest left it alone. */
  lemma PropsSetAfterHead(env: Env, slots: Slots, next: Slots, r: Slots, todo: seq<string>, sel: set<string>, fp: FormProp)
    requires todo != [] && todo[0] !in todo[1..] && todo[0] in env.config && todo[0] in sel
    requires next == TouchSlots(slots, todo[0], UpdateOp(PropsFor(env, todo[0], fp)), env.check)
    requires r.Keys == next.Keys
    requires todo[0] in next ==> r[todo[0]] == next[todo[0]]
    requires forall k | Mounted(next, k) && k in todo[1..] && k in sel ::
      k in env.config && r[k] == Some(UpdateState(next[k].value, PropsFor(env, k, fp)))
    ensures forall k | Mounted(slots, k) && k in todo && k in sel ::
      k in env.config && r[k] == Some(UpdateState(slots[k].value, PropsFor(env, k, fp)))
  {
    assert todo == [todo[0]] + todo[1..];
    forall k | Mounted(slots, k) && k in todo && k in sel
      ensures k in env.config && r[k] == Some(UpdateState(slots[k].value, PropsFor(env, k, fp)))
    {
      if k != todo[0] {
        assert k in todo[1..] && next[k] == slots[k];
      }
    }
  }

  /** A `forEach` over `todo` keeps the refs' names and touches no ref
      outside `todo`. */
  lemma {:induction false} ForEachTouchesOnlyTodo(env: Env, slots: Slots, todo: seq<string>, action: Action)
    requires Shaped(env, slots) && forall n | n in todo :: n in env.config
    ensures ForEachField(env, slots, todo, action).slots.Keys == slots.Keys
    ensures forall k | k in slots && k !in todo :: ForEachField(env, slots, todo, action).slots[k] == slots[k]
  {
    if todo != [] {
      var n := todo[0];
      var next := TouchSlots(slots, n, ActionOp(env, slots, n, action), env.check);
      ForEachTouchesOnlyTodo(env, next, todo[1..], action);
      assert forall k :: k in todo <==> k == n || k in todo[1..] by {
        assert todo == [n] + todo[1..];
      }
    }
  }

  /** After `resetForm`, a mounted field holds `initState(context)` for every
      key that `initState` returns, and keeps its previous value for every
      other key: with no `initState` (`{}`), the value typed in survives. */
  lemma ResetFormRestoresInitialKeys(env: Env, slots: Slots, k: string, key: string)
    requires Shaped(env, slots) && Mounted(slots, k)
    ensures var r := ForEachField(env, slots, env.names, ResetAction).slots;
      && Mounted(r, k)
      && Get(r[k].value, key) == Get(Spread(slots[k].value, InitialState(env.config[k], env.context)), key)
      && (key in InitialState(env.config[k], env.context) ==> Get(r[k].value, key) == InitialState(env.config[k], env.context)[key])
      && (key !in InitialState(env.config[k], env.context) ==> Get(r[k].value, key) == Get(slots[k].value, key))
  {
    ResetAllIsPerField(env, slots);
    var init := InitialState(env.config[k], env.context);
    assert ForEachField(env, slots, env.names, ResetAction).slots[k] == Some(Spread(slots[k].value, init));
  }

  // ---------------------------------------------------------------------
  // broadcast

  predicate DependsOn(c: FieldConfig, name: string) {
    c.deps.Some? && name in c.deps.value
  }

  /** The calls one `broadcast` makes, in order: `updateField(n)` on a
      dependent, then its `effect` if it has one. */
  datatype Call = UpdateCall(field: string) | EffectCall(field: string, trigger: Trigger)

  datatype Cascade = Cascade(slots: Slots, log: seq<Call>, emitted: seq<Change>)

  /** `updateField(n)` inside `broadcast`. */
  function UpdateStep(env: Env, slots: Slots, n: string): (r: Slots)
    requires Shaped(env, slots) && n in env.config
    ensures r.Keys == slots.Keys
  {
    TouchSlots(slots, n, ActionOp(env, slots, n, UpdateAction), env.check)
  }

  /** `updateField(n)` on a mounted field merges the props computed from
      the current snapshot into that field and changes nothing else. */
  lemma UpdateStepAt(env: Env, slots: Slots, n: string, p: Record)
    requires Shaped(env, slots) && n in env.config && Mounted(slots, n)
    requires p == PropsFor(env, n, FormPropOf(env.names, slots))
    ensures UpdateStep(env, slots, n) == slots[n := Some(UpdateState(slots[n].value, p))]
  {
    assert ActionOp(env, slots, n, UpdateAction) == UpdateOp(p);
    assert ApplyOp(slots[n].value, UpdateOp(p), env.check) == UpdateState(slots[n].value, p);
  }

  /** `c.effect(context, getFormPropWithMutations(), { name, type })` for the
      entry `n`: the effect sees the current snapshot and its calls run in
      order. */
  function EffectStep(env: Env, slots: Slots, n: string, t: Trigger): (r: Run)
    requires Shaped(env, slots) && n in env.config && env.config[n].effect.Some?
    ensures r.slots.Keys == slots.Keys
  {
    var muts := env.config[n].effect.value(env.context, FormPropOf(env.names, slots), t);
    MutationsTouchOnlyTargets(slots, muts, env.check);
    RunMutations(slots, muts, env.check)
  }

  /** The `forEach` in `broadcast(name, type)` over the entries `todo`: each
      entry whose `deps` include `name` gets `updateField` (props from the
      snapshot at that moment) and then, if it has one, its `effect`, which
      sees the snapshot after that update and whose calls run in order. */
  function CascadeOver(env: Env, slots: Slots, todo: seq<string>, t: Trigger): Cascade
    requires Shaped(env, slots) && forall n | n in todo :: n in env.config
    decreases |todo|
  {
    if todo == [] then Cascade(slots, [], [])
    else
      var n := todo[0];
      var c := env.config[n];
      if !DependsOn(c, t.name) then CascadeOver(env, slots, todo[1..], t)
      else
        var updated := UpdateStep(env, slots, n);
        if c.effect.None? then
          var rest := CascadeOver(env, updated, todo[1..], t);
          Cascade(rest.slots, [UpdateCall(n)] + rest.log, rest.emitted)
        else
          var after := EffectStep(env, updated, n, t);
          var rest := CascadeOver(env, after.slots, todo[1..], t);
          Cascade(rest.slots, [UpdateCall(n), EffectCall(n, t)] + rest.log, after.emitted + rest.emitted)
  }

  /** What remains of `broadcast`'s pass over the configuration once the
      first `i` entries are done. */
  function CascadeFrom(env: Env, slots: Slots, i: nat, t: Trigger): Cascade
    requires Shaped(env, slots) && i <= |env.names|
  {
    assert forall n | n in env.names[i..] :: n in env.names;
    CascadeOver(env, slots, env.names[i..], t)
  }

  /** The whole pass, and the pass with nothing left. */
  lemma CascadeFromEnds(env: Env, slots: Slots, t: Trigger)
    requires Shaped(env, slots)
    ensures CascadeFrom(env, slots, 0, t) == CascadeOver(env, slots, env.names, t)
    ensures CascadeFrom(env, slots, |env.names|, t) == Cascade(slots, [], [])
  {
    assert env.names[0..] == env.names;
    assert env.names[|env.names|..] == [];
  }

  /** One more entry done, when it is not a dependent. */
  lemma CascadeSkipAt(env: Env, slots: Slots, i: nat, t: Trigger)
    requires Shaped(env, slots) && i < |env.names| && env.names[i] in env.config
    requires !DependsOn(env.config[env.names[i]], t.name)
    ensures CascadeFrom(env, slots, i, t) == CascadeFrom(env, slots, i + 1, t)
  {
    var todo := env.names;
    assert forall n | n in todo[i..] :: n in todo;
    assert todo[i..][0] == todo[i] && todo[i..][1..] == todo[i + 1..];
  }

  /** One more entry done, when it is a dependent without an effect. */
  lemma CascadeUpdateAt(env: Env, slots: Slots, i: nat, t: Trigger)
    requires Shaped(env, slots) && i < |env.names| && env.names[i] in env.config
    requires DependsOn(env.config[env.names[i]], t.name) && env.config[env.names[i]].effect.None?
    ensures var rest := CascadeFrom(env, UpdateStep(env, slots, env.names[i]), i + 1, t);
      && CascadeFrom(env, slots, i, t).slots == rest.slots
      && CascadeFrom(env, slots, i, t).log == [UpdateCall(env.names[i])] + rest.log
      && CascadeFrom(env, slots, i, t).emitted == rest.emitted
  {
    var todo := env.names;
    assert forall n | n in todo[i..] :: n in todo;
    assert todo[i..][0] == todo[i] && todo[i..][1..] == todo[i + 1..];
  }

  /** One more entry done, when it is a dependent with an effect. */
  lemma CascadeEffectAt(env: Env, slots: Slots, i: nat, t: Trigger)
    requires Shaped(env, slots) && i < |env.names| && env.names[i] in env.config
    requires DependsOn(env.config[env.names[i]], t.name) && env.config[env.names[i]].effect.Some?
    ensures var after := EffectStep(env, UpdateStep(env, slots, env.names[i]), env.names[i], t);
      var rest := CascadeFrom(env, after.slots, i + 1, t);
      && CascadeFrom(env, slots, i, t).slots == rest.slots
      && CascadeFrom(env, slots, i, t).log == [UpdateCall(env.names[i]), EffectCall(env.names[i], t)] + rest.log
      && CascadeFrom(env, slots, i, t).emitted == after.emitted + rest.emitted
  {
    var todo := env.names;
    assert forall n | n in todo[i..] :: n in todo;
    assert todo[i..][0] == todo[i] && todo[i..][1..] == todo[i + 1..];
    CascadeEffectHead(env, slots, todo[i..], t);
  }

  /** `CascadeOver` unfolded once at a dependent with an effect. */
  lemma CascadeEffectHead(env: Env, slots: Slots, todo: seq<string>, t: Trigger)
    requires Shaped(env, slots) && todo != [] && forall n | n in todo :: n in env.config
    requires DependsOn(env.config[todo[0]], t.name) && env.config[todo[0]].effect.Some?
    ensures var after := EffectStep(env, UpdateStep(env, slots, todo[0]), todo[0], t);
      var rest := CascadeOver(env, after.slots, todo[1..], t);
      CascadeOver(env, slots, todo, t) == Cascade(rest.slots, [UpdateCall(todo[0]), EffectCall(todo[0], t)] + rest.log, after.emitted + rest.emitted)
  {
  }

  /** The calls `broadcast` is meant to make, which depend only on the
      configuration: for each entry of `todo` in order whose `deps` include
      `t.name`, `updateField`, then its `effect` if present. */
  function Plan(config: map<string, FieldConfig>, todo: seq<string>, t: Trigger): seq<Call>
    requires forall n | n in todo :: n in config
    decreases |todo|
  {
    if todo == [] then []
    else
      var n := todo[0];
      var rest := Plan(config, todo[1..], t);
      if !DependsOn(config[n], t.name) then rest
      else if config[n].effect.None? then [UpdateCall(n)] + rest
      else [UpdateCall(n), EffectCall(n, t)] + rest
  }

  /** Whatever the fields' states and whatever the effects do, `broadcast`
      makes exactly the planned calls, in the planned order. */
  lemma {:induction false} CascadeFollowsPlan(env: Env, slots: Slots, todo: seq<string>, t: Trigger)
    requires Shaped(env, slots) && forall n | n in todo :: n in env.config
    ensures CascadeOver(env, slots, todo, t).log == Plan(env.config, todo, t)
  {
    if todo != [] {
      var n := todo[0];
      var c := env.config[n];
      if !DependsOn(c, t.name) {
        CascadeFollowsPlan(env, slots, todo[1..], t);
      } else {
        var updated := UpdateStep(env, slots, n);
        if c.effect.None? {
          CascadeFollowsPlan(env, updated, todo[1..], t);
        } else {
          CascadeFollowsPlan(env, EffectStep(env, updated, n, t).slots, todo[1..], t);
        }
      }
    }
  }

  /** The entries of `todo` whose `deps` include `name`, in `todo`'s order. */
  function Dependents(config: map<string, FieldConfig>, todo: seq<string>, name: string): (r: seq<string>)
    requires forall n | n in todo :: n in config
    ensures forall n :: n in r <==> n in todo && DependsOn(config[n], name)
    decreases |todo|
  {
    if todo == [] then []
    else
      var rest := Dependents(config, todo[1..], name);
      assert forall n :: n in todo <==> n == todo[0] || n in todo[1..] by {
        assert todo == [todo[0]] + todo[1..];
      }
      if DependsOn(config[todo[0]], name) then [todo[0]] + rest else rest
  }

  /** The position of `x` in `s`. */
  function IndexOf(s: seq<string>, x: string): (i: nat)
    requires x in s
    ensures i < |s| && s[i] == x
    ensures forall k | 0 <= k < i :: s[k] != x
    decreases |s|
  {
    if s[0] == x then 0
    else
      assert x in s[1..] by { assert s == [s[0]] + s[1..]; }
      1 + IndexOf(s[1..], x)
  }

  /** The position of a later element is one past its position in the tail. */
  lemma IndexOfTail(s: seq<string>, x: string)
    requires |s| > 0 && x in s[1..] && s[0] != x
    ensures IndexOf(s, x) == 1 + IndexOf(s[1..], x)
  {
  }

  /** The dependents come in configuration order: an earlier dependent sits
      earlier in `todo`. */
  lemma {:induction false} DependentsInOrder(config: map<string, FieldConfig>, todo: seq<string>, name: string)
    requires (forall n | n in todo :: n in config) && Distinct(todo)
    ensures forall i, j | 0 <= i < j < |Dependents(config, todo, name)| ::
      IndexOf(todo, Dependents(config, todo, name)[i]) < IndexOf(todo, Dependents(config, todo, name)[j])
    decreases |todo|
  {
    if todo != [] {
      var n := todo[0];
      var tail := todo[1..];
      assert Distinct(tail) by {
        forall i, j | 0 <= i < j < |tail| ensures tail[i] != tail[j] {
          assert tail[i] == todo[i + 1] && tail[j] == todo[j + 1];
        }
      }
      assert n !in tail by {
        forall i | 0 <= i < |tail| ensures tail[i] != n {
          assert tail[i] == todo[i + 1];
        }
      }
      DependentsInOrder(config, tail, name);
      var rest := Dependents(config, tail, name);
      var r := Dependents(config, todo, name);
      if DependsOn(config[n], name) {
        assert r == [n] + rest;
        forall i, j | 0 <= i < j < |r|
          ensures IndexOf(todo, r[i]) < IndexOf(todo, r[j])
        {
          IndexOfTail(todo, rest[j - 1]);
          if i > 0 {
            IndexOfTail(todo, rest[i - 1]);
          }
        }
      } else {
        assert r == rest;
        forall i, j | 0 <= i < j < |r|
          ensures IndexOf(todo, r[i]) < IndexOf(todo, r[j])
        {
          IndexOfTail(todo, rest[i]);
          IndexOfTail(todo, rest[j]);
        }
      }
    }
  }

  /** The fields of the `updateField` calls of a log, in order. */
  function UpdatedFields(log: seq<Call>): seq<string>
    decreases |log|
  {
    if log == [] then []
    else if log[0].UpdateCall? then [log[0].field] + UpdatedFields(log[1..])
    else UpdatedFields(log[1..])
  }

  /** The plan's `updateField` calls are exactly the dependents, in
      configuration order. */
  lemma {:induction false} PlanUpdatesDependents(config: map<string, FieldConfig>, todo: seq<string>, t: Trigger)
    requires forall n | n in todo :: n in config
    ensures UpdatedFields(Plan(config, todo, t)) == Dependents(config, todo, t.name)
    decreases |todo|
  {
    if todo != [] {
      var n := todo[0];
      PlanUpdatesDependents(config, todo[1..], t);
      var rest := Plan(config, todo[1..], t);
      var p := Plan(config, todo, t);
      if DependsOn(config[n], t.name) {
        if config[n].effect.None? {
          assert p[1..] == rest;
        } else {
          assert p[1..] == [EffectCall(n, t)] + rest;
          assert p[1..][1..] == rest;
        }
      }
    }
  }

  /** Every call of `log` is about a configured entry of `todo`. */
  predicate CallsWithin(log: seq<Call>, todo: seq<string>, config: map<string, FieldConfig>) {
    forall i | 0 <= i < |log| :: log[i].field in todo && log[i].field in config
  }

  /** Every effect call of `log` comes right after its own field's update and
      carries the trigger `t`, and every update of a field with an effect is
      followed by that effect call. */
  predicate EffectsPaired(log: seq<Call>, config: map<string, FieldConfig>, t: Trigger) {
    && (forall i | 0 <= i < |log| && log[i].EffectCall? ::
          && 0 < i && log[i - 1] == UpdateCall(log[i].field)
          && log[i].trigger == t && log[i].field in config && config[log[i].field].effect.Some?)
    && (forall i | 0 <= i < |log| && log[i].UpdateCall? && log[i].field in config && config[log[i].field].effect.Some? ::
          i + 1 < |log| && log[i + 1] == EffectCall(log[i].field, t))
  }

  /** The plan calls only entries of `todo`, and pairs every effect call with
      the update just before it. */
  lemma {:induction false} PlanPairsEffects(config: map<string, FieldConfig>, todo: seq<string>, t: Trigger)
    requires forall n | n in todo :: n in config
    ensures CallsWithin(Plan(config, todo, t), todo, config)
    ensures EffectsPaired(Plan(config, todo, t), config, t)
    decreases |todo|
  {
    if todo != [] {
      var n := todo[0];
      PlanPairsEffects(config, todo[1..], t);
      var rest := Plan(config, todo[1..], t);
      var p := Plan(config, todo, t);
      assert forall k | k in todo[1..] :: k in todo;
      if !DependsOn(config[n], t.name) {
        assert p == rest;
      } else if config[n].effect.None? {
        assert p == [UpdateCall(n)] + rest;
        forall i | 1 <= i < |p|
          ensures p[i] == rest[i - 1]
        {
        }
      } else {
        assert p == [UpdateCall(n), EffectCall(n, t)] + rest;
        forall i | 2 <= i < |p|
          ensures p[i] == rest[i - 2]
        {
        }
      }
    }
  }

  /** With no effect among the dependents, `broadcast` changes no value and
      no error and emits nothing: `updateField` pins both, and the callback
      that was to validate each dependent is dropped by `update`. Fields that
      are not dependents keep their whole state. */
  lemma {:induction false} CascadeWithoutEffects(env: Env, slots: Slots, todo: seq<string>, t: Trigger)
    requires Shaped(env, slots) && forall n | n in todo :: n in env.config
    requires forall n | n in todo && DependsOn(env.config[n], t.name) :: env.config[n].effect.None?
    ensures var r := CascadeOver(env, slots, todo, t);
      && r.emitted == []
      && r.slots.Keys == slots.Keys
      && (forall k | k in slots :: Mounted(r.slots, k) == Mounted(slots, k))
      && (forall k | Mounted(slots, k) ::
            && Get(r.slots[k].value, "value") == Get(slots[k].value, "value")
            && Get(r.slots[k].value, "error") == Get(slots[k].value, "error"))
      && (forall k | k in slots && !(k in todo && DependsOn(env.config[k], t.name)) :: r.slots[k] == slots[k])
  {
    if todo != [] {
      var n := todo[0];
      assert forall k :: k in todo <==> k == n || k in todo[1..] by {
        assert todo == [n] + todo[1..];
      }
      if !DependsOn(env.config[n], t.name) {
        CascadeWithoutEffects(env, slots, todo[1..], t);
      } else {
        var p := PropsFor(env, n, FormPropOf(env.names, slots));
        UpdatePins(slots, n, p, env.check);
        CascadeWithoutEffects(env, UpdateStep(env, slots, n), todo[1..], t);
      }
    }
  }

  /** A broadcast without effects among distinct dependents: every mounted
      dependent ends with the props computed from the snapshot taken before
      the broadcast merged in. */
  lemma {:induction false} CascadeSetsProps(env: Env, slots: Slots, todo: seq<string>, t: Trigger)
    requires Shaped(env, slots) && (forall n | n in todo :: n in env.config) && Distinct(todo)
    requires forall n | n in todo && DependsOn(env.config[n], t.name) :: env.config[n].effect.None?
    ensures CascadeOver(env, slots, todo, t).slots.Keys == slots.Keys
    ensures forall k | Mounted(slots, k) && k in todo && DependsOn(env.config[k], t.name) ::
      CascadeOver(env, slots, todo, t).slots[k]
        == Some(UpdateState(slots[k].value, PropsFor(env, k, FormPropOf(env.names, slots))))
  {
    CascadeWithoutEffects(env, slots, todo, t);
    if todo != [] {
      var n := todo[0];
      DistinctTail(todo);
      if !DependsOn(env.config[n], t.name) {
        CascadeSetsProps(env, slots, todo[1..], t);
      } else {
        var fp := FormPropOf(env.names, slots);
        var next := UpdateStep(env, slots, n);
        assert ActionOp(env, slots, n, UpdateAction) == UpdateOp(PropsFor(env, n, fp));
        assert CascadeOver(env, slots, todo, t).slots == CascadeOver(env, next, todo[1..], t).slots;
        UpdatePins(slots, n, PropsFor(env, n, fp), env.check);
        SnapshotKept(env.names, slots, next);
        CascadeWithoutEffects(env, next, todo[1..], t);
        CascadeSetsProps(env, next, todo[1..], t);
        var sel := set k | k in env.config && DependsOn(env.config[k], t.name);
        PropsSetAfterHead(env, slots, next, CascadeOver(env, next, todo[1..], t).slots, todo, sel, fp);
      }
    }
  }

  /** No effect of a dependent in `todo` names `k` in its calls, whatever
      context and snapshot it is given. */
  ghost predicate EffectsAvoid(env: Env, todo: seq<string>, t: Trigger, k: string)
    requires forall n | n in todo :: n in env.config
  {
    forall n, ctx, fp | n in todo && DependsOn(env.config[n], t.name) && env.config[n].effect.Some? ::
      forall m | m in env.config[n].effect.value(ctx, fp, t) :: m.target != k
  }

  /** A broadcast never mounts or unmounts a field, and keeps the registry's
      names, whatever the effects do. */
  lemma {:induction false} CascadeKeepsMounts(env: Env, slots: Slots, todo: seq<string>, t: Trigger)
    requires Shaped(env, slots) && forall n | n in todo :: n in env.config
    ensures var r := CascadeOver(env, slots, todo, t).slots;
      && r.Keys == slots.Keys
      && forall k | k in slots :: Mounted(r, k) == Mounted(slots, k)
    decreases |todo|
  {
    if todo != [] {
      var n := todo[0];
      var c := env.config[n];
      assert forall x | x in todo[1..] :: x in todo;
      if !DependsOn(c, t.name) {
        CascadeKeepsMounts(env, slots, todo[1..], t);
      } else {
        var updated := UpdateStep(env, slots, n);
        assert forall k | k in slots :: Mounted(updated, k) == Mounted(slots, k);
        if c.effect.None? {
          CascadeKeepsMounts(env, updated, todo[1..], t);
        } else {
          var muts := c.effect.value(env.context, FormPropOf(env.names, updated), t);
          MutationsTouchOnlyTargets(updated, muts, env.check);
          CascadeKeepsMounts(env, EffectStep(env, updated, n, t).slots, todo[1..], t);
        }
      }
    }
  }

  /** A broadcast leaves alone every field that is not a dependent and that
      no dependent's effect names. */
  lemma {:induction false} CascadeFrame(env: Env, slots: Slots, todo: seq<string>, t: Trigger, k: string)
    requires Shaped(env, slots) && forall n | n in todo :: n in env.config
    requires k in slots && !(k in todo && DependsOn(env.config[k], t.name))
    requires EffectsAvoid(env, todo, t, k)
    ensures k in CascadeOver(env, slots, todo, t).slots && CascadeOver(env, slots, todo, t).slots[k] == slots[k]
    decreases |todo|
  {
    if todo != [] {
      var n := todo[0];
      var c := env.config[n];
      assert forall x | x in todo[1..] :: x in todo;
      assert EffectsAvoid(env, todo[1..], t, k);
      if !DependsOn(c, t.name) {
        CascadeFrame(env, slots, todo[1..], t, k);
      } else {
        var updated := UpdateStep(env, slots, n);
        assert updated[k] == slots[k];
        if c.effect.None? {
          CascadeFrame(env, updated, todo[1..], t, k);
        } else {
          var muts := c.effect.value(env.context, FormPropOf(env.names, updated), t);
          assert forall m | m in muts :: m.target != k;
          MutationsTouchOnlyTargets(updated, muts, env.check);
          CascadeFrame(env, EffectStep(env, updated, n, t).slots, todo[1..], t, k);
        }
      }
    }
  }
}
