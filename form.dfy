/** The form controller (`Form` in src/Form.tsx): a registry of field refs,
    the ordered configuration, and the list of subscribers. */
module Forms {
  import opened JsValues
  import opened Fields
  import opened FormState

  /** A callback passed to `subscribe`, known by its identity. */
  datatype Subscriber = Subscriber(id: nat)

  /** One call `cb(getFormProp())` made at the end of `broadcast`. */
  datatype Delivery = Delivery(to: Subscriber, snapshot: FormProp)

  /** The arguments of one `onSubmit(getValues(), getValues(true))` call. */
  datatype Submission = Submission(values: Record, transformed: Record)

  class Form {
    /** `Object.entries(config)` order; also the order of `fieldRefs`. */
    const names: seq<string>
    const config: map<string, FieldConfig>
    const applyProps: Option<(string, FieldConfig) -> Option<Record>>
    /** How every schema object's `validate` settles. */
    const check: SchemaCheck
    /** `fieldRefs`: `null` stands for a ref whose field is not mounted. */
    const refs: map<string, Field?>
    var context: JsVal
    var subscribers: seq<Subscriber>

    ghost predicate Valid() {
      && WellFormed(names, config)
      && EffectsStayInForm(config)
      && refs.Keys == config.Keys
      && (forall n | n in refs && refs[n] != null :: refs[n].name == n)
    }

    /** The mounted field controllers. */
    ghost function MountedFields(): set<Field> {
      set n | n in refs && refs[n] != null :: refs[n]
    }

    /** Every field's current state, by name. */
    function States(): (s: Slots)
      reads MountedFields()
      ensures s.Keys == refs.Keys
    {
      map n | n in refs :: if refs[n] == null then None else Some(refs[n].state)
    }

    function CurrentEnv(): Env
      reads this
    {
      Env(names, config, context, applyProps, check)
    }

    /** `getValues(isTransform)`: the mounted fields only, each with its
        value, or with `transform(context, getFormProp(), value)` when asked
        to transform and the field has a transform. */
    function GetValues(transform: bool): (r: Record)
      requires Valid()
      reads this, MountedFields()
      ensures forall k :: k in r <==> k in refs && refs[k] != null
      ensures !transform ==> forall k | k in r :: r[k] == refs[k].GetValue()
      ensures transform ==> forall k | k in r ::
        r[k] == match config[k].transform
                case Some(f) => f(context, FormPropOf(names, States()), refs[k].GetValue())
                case None => refs[k].GetValue()
    {
      if transform then TransformedValues(CurrentEnv(), States()) else Values(names, States())
    }

    /** `getErrors()`: the mounted fields whose error is not `undefined`. */
    function GetErrors(): (r: Record)
      requires Valid()
      reads MountedFields()
      ensures forall k :: k in r <==> k in refs && refs[k] != null && refs[k].GetError() != Undefined
      ensures forall k | k in r :: r[k] == refs[k].GetError()
    {
      Errors(names, States())
    }

    /** `getFormProp()`. */
    function GetFormProp(): (fp: FormProp)
      requires Valid()
      reads MountedFields()
      ensures fp == FormProp(GetValues(false), GetErrors())
    {
      FormPropOf(names, States())
    }

    /** `isValid()`: true iff `getErrors()` is empty, iff no mounted field
        has a defined error. */
    function IsValid(): (ok: bool)
      requires Valid()
      reads MountedFields()
      ensures ok <==> GetErrors() == map[]
      ensures ok <==> forall k | k in refs && refs[k] != null :: refs[k].GetError() == Undefined
    {
      ValidIffNoErrors(names, States());
      NoDefinedError(Errors(names, States()))
    }

    /** The constructor followed by `componentDidMount`: a ref per configured
        name, in order; the fields the children render (`rendered`) mount with
        `initState(context)`, or `{}` when there is none. */
    constructor (names: seq<string>, config: map<string, FieldConfig>, context: JsVal,
                 applyProps: Option<(string, FieldConfig) -> Option<Record>>, check: SchemaCheck,
                 rendered: set<string>)
      requires WellFormed(names, config) && EffectsStayInForm(config)
      ensures Valid()
      ensures this.names == names && this.config == config && this.context == context
      ensures this.applyProps == applyProps && this.check == check
      ensures subscribers == []
      ensures forall n | n in config :: refs[n] != null <==> n in rendered
      ensures forall n | n in config && n in rendered :: refs[n].state == InitialState(config[n], context)
      ensures fresh(MountedFields())
    {
      var m: map<string, Field?> := map[];
      var i := 0;
      while i < |names|
        invariant 0 <= i <= |names|
        invariant forall k :: k in m <==> k in names[..i]
        invariant forall k | k in m :: m[k] != null <==> k in rendered
        invariant forall k | k in m && m[k] != null ::
          fresh(m[k]) && m[k].name == k && m[k].state == InitialState(config[k], context)
      {
        var n := names[i];
        assert names[..i + 1] == names[..i] + [n];
        if n in rendered {
          var f := new Field(n, InitialState(config[n], context));
          m := m[n := f];
        } else {
          m := m[n := null];
        }
        i := i + 1;
      }
      assert names[..|names|] == names;
      this.names := names;
      this.config := config;
      this.applyProps := applyProps;
      this.check := check;
      this.refs := m;
      this.context := context;
      subscribers := [];
    }

    /** When only the field `name` was modified, only its slot differs. */
    twostate lemma OnlyOneChanged(name: string)
      requires Valid() && name in refs && refs[name] != null
      requires forall g: Field | g in MountedFields() && g != refs[name] :: g.state == old(g.state)
      ensures States() == old(States())[name := Some(refs[name].state)]
    {
      forall k | k in refs
        ensures States()[k] == old(States())[name := Some(refs[name].state)][k]
      {
        if k != name && refs[k] != null {
          assert refs[k] in MountedFields();
          assert refs[k].name == k;
        }
      }
    }

    /** `updateField(name)`: the field's props recomputed from the current
        snapshot, `applyProps` on top, merged with `value` and `error`
        pinned. The callback argument is not modelled: `update` ignores it. */
    method UpdateField(name: string) returns (emitted: seq<Change>)
      requires Valid() && name in config
      modifies MountedFields()
      ensures States() == UpdateStep(CurrentEnv(), old(States()), name)
      ensures emitted == []
    {
      var f := refs[name];
      if f == null {
        return [];
      }
      var p := PropsFor(CurrentEnv(), name, GetFormProp());
      UpdateStepAt(CurrentEnv(), States(), name, p);
      emitted := f.Update(p);
      OnlyOneChanged(name);
    }

    /** `resetField(name)`: merges `initState(context)` (or `{}`) into the
        mounted field. */
    method ResetField(name: string) returns (emitted: seq<Change>)
      requires Valid() && name in config
      modifies MountedFields()
      ensures States() == TouchSlots(old(States()), name, InitOp(InitialState(config[name], context)), check)
      ensures emitted == TouchEmits(old(States()), name, InitOp(InitialState(config[name], context)), check)
    {
      var f := refs[name];
      if f == null {
        return [];
      }
      ghost var s0 := States();
      assert s0[name] == Some(f.state);
      emitted := f.InitState(InitialState(config[name], context));
      OnlyOneChanged(name);
    }

    /** `validateField(name)`. */
    method ValidateField(name: string) returns (emitted: seq<Change>)
      requires Valid() && name in config
      modifies MountedFields()
      ensures States() == TouchSlots(old(States()), name, ValidateOp, check)
      ensures emitted == TouchEmits(old(States()), name, ValidateOp, check)
    {
      var f := refs[name];
      if f == null {
        return [];
      }
      emitted := f.Validate(check);
      OnlyOneChanged(name);
    }

    /** `setValue(name, value)` of the mutable snapshot given to effects. */
    method SetFieldValue(name: string, value: JsVal) returns (emitted: seq<Change>)
      requires Valid() && name in config
      modifies MountedFields()
      ensures States() == TouchSlots(old(States()), name, SetValueOp(value), check)
      ensures emitted == TouchEmits(old(States()), name, SetValueOp(value), check)
    {
      var f := refs[name];
      if f == null {
        return [];
      }
      emitted := f.SetValue(value);
      OnlyOneChanged(name);
    }

    /** `setError(name, error)` of the mutable snapshot given to effects. */
    method SetFieldError(name: string, error: JsVal) returns (emitted: seq<Change>)
      requires Valid() && name in config
      modifies MountedFields()
      ensures States() == TouchSlots(old(States()), name, SetErrorOp(error), check)
      ensures emitted == TouchEmits(old(States()), name, SetErrorOp(error), check)
    {
      var f := refs[name];
      if f == null {
        return [];
      }
      emitted := f.SetError(error);
      OnlyOneChanged(name);
    }

    /** One call an effect makes on its mutable snapshot. */
    method ApplyMutation(m: Mutation) returns (emitted: seq<Change>)
      requires Valid() && m.target in config
      modifies MountedFields()
      ensures States() == TouchSlots(old(States()), m.target, MutationOp(m), check)
      ensures emitted == TouchEmits(old(States()), m.target, MutationOp(m), check)
    {
      match m {
        case SetValueOf(n, v) => emitted := SetFieldValue(n, v);
        case SetErrorOf(n, e) => emitted := SetFieldError(n, e);
        case ValidateOf(n) => emitted := ValidateField(n);
      }
    }

    /** The calls an effect makes on its mutable snapshot, in order. */
    method ApplyMutations(muts: seq<Mutation>) returns (emitted: seq<Change>)
      requires Valid() && TargetsKnown(muts, config)
      modifies MountedFields()
      ensures States() == RunMutations(old(States()), muts, check).slots
      ensures emitted == RunMutations(old(States()), muts, check).emitted
    {
      ghost var total := RunMutations(States(), muts, check);
      emitted := [];
      var j := 0;
      while j < |muts|
        invariant 0 <= j <= |muts|
        invariant RunMutations(States(), muts[j..], check).slots == total.slots
        invariant emitted + RunMutations(States(), muts[j..], check).emitted == total.emitted
      {
        var m := muts[j];
        assert m in muts;
        RunMutationsAt(States(), muts, j, check);
        var em := ApplyMutation(m);
        AppendAssoc(emitted, em, RunMutations(States(), muts[j + 1..], check).emitted);
        emitted := emitted + em;
        j := j + 1;
      }
    }

    /** The per-name step of the `forEach` loops. */
    method RunAction(name: string, action: Action) returns (emitted: seq<Change>)
      requires Valid() && name in config
      modifies MountedFields()
      ensures States() == TouchSlots(old(States()), name, ActionOp(CurrentEnv(), old(States()), name, action), check)
      ensures emitted == TouchEmits(old(States()), name, ActionOp(CurrentEnv(), old(States()), name, action), check)
    {
      match action {
        case UpdateAction =>
          UpdatePins(States(), name, PropsFor(CurrentEnv(), name, FormPropOf(names, States())), check);
          emitted := UpdateField(name);
        case ResetAction =>
          emitted := ResetField(name);
        case ValidateAction =>
          emitted := ValidateField(name);
      }
    }

    /** One turn of a `forEach` loop: `done` is what the earlier turns
        emitted, and the result extends it, stated against what remains. */
    method ForEachStep(i: nat, action: Action, done: seq<Change>) returns (emitted: seq<Change>)
      requires Valid() && i < |names|
      modifies MountedFields()
      ensures ForEachFrom(CurrentEnv(), States(), i + 1, action).slots == ForEachFrom(CurrentEnv(), old(States()), i, action).slots
      ensures emitted + ForEachFrom(CurrentEnv(), States(), i + 1, action).emitted
        == done + ForEachFrom(CurrentEnv(), old(States()), i, action).emitted
    {
      ForEachFromAt(CurrentEnv(), States(), i, action);
      var em := RunAction(names[i], action);
      AppendAssoc(done, em, ForEachFrom(CurrentEnv(), States(), i + 1, action).emitted);
      emitted := done + em;
    }

    /** `Object.keys(...).forEach(...)` over the configured names, in order. */
    method ForEachName(action: Action) returns (emitted: seq<Change>)
      requires Valid()
      modifies MountedFields()
      ensures States() == ForEachField(CurrentEnv(), old(States()), names, action).slots
      ensures emitted == ForEachField(CurrentEnv(), old(States()), names, action).emitted
    {
      ghost var env := CurrentEnv();
      ForEachFromEnds(env, States(), action);
      ghost var total := ForEachFrom(env, States(), 0, action);
      emitted := [];
      var i := 0;
      while i < |names|
        invariant 0 <= i <= |names| && Shaped(env, States())
        invariant ForEachFrom(env, States(), i, action).slots == total.slots
        invariant emitted + ForEachFrom(env, States(), i, action).emitted == total.emitted
      {
        emitted := ForEachStep(i, action, emitted);
        i := i + 1;
      }
      ForEachFromEnds(env, States(), action);
    }

    /** `updateAllFields()`: every field's props recomputed in order; no
        value, no error and no mount changes, so nothing is emitted, and
        every mounted field receives the props computed from the snapshot
        taken before the pass. */
    method UpdateAllFields() returns (emitted: seq<Change>)
      requires Valid()
      modifies MountedFields()
      ensures States() == ForEachField(CurrentEnv(), old(States()), names, UpdateAction).slots
      ensures emitted == []
      ensures forall k | k in refs && refs[k] != null ::
        refs[k].GetValue() == old(refs[k].GetValue()) && refs[k].GetError() == old(refs[k].GetError())
      ensures forall k | k in refs && refs[k] != null ::
        refs[k].state == UpdateState(old(refs[k].state), PropsFor(CurrentEnv(), k, old(GetFormProp())))
    {
      ghost var before := States();
      ghost var fp := GetFormProp();
      UpdateAllKeepsValuesAndErrors(CurrentEnv(), before, names);
      UpdateAllSetsProps(CurrentEnv(), before, names);
      emitted := ForEachName(UpdateAction);
      forall k | k in refs && refs[k] != null
        ensures refs[k].state == UpdateState(old(refs[k].state), PropsFor(CurrentEnv(), k, fp))
      {
        assert before[k] == Some(old(refs[k].state)) && k in names;
        assert States()[k] == Some(refs[k].state);
      }
    }

    /** `componentDidUpdate`: a context of another identity recomputes every
        field's props. */
    method SetContext(ctx: JsVal) returns (emitted: seq<Change>)
      requires Valid()
      modifies this`context, MountedFields()
      ensures context == ctx
      ensures old(context) == ctx ==> States() == old(States())
      ensures old(context) != ctx ==> States() == ForEachField(CurrentEnv(), old(States()), names, UpdateAction).slots
      ensures old(context) != ctx ==> forall k | k in refs && refs[k] != null ::
        refs[k].state == UpdateState(old(refs[k].state), PropsFor(CurrentEnv(), k, old(GetFormProp())))
      ensures emitted == []
    {
      emitted := [];
      if ctx != context {
        ghost var before := States();
        context := ctx;
        assert States() == before;
        emitted := UpdateAllFields();
      }
    }

    /** One entry of the `broadcast` loop, stated against what remains of it:
        when the entry's `deps` include the trigger's name, `updateField` and
        then the entry's `effect`, whose calls are applied in order. */
    method BroadcastStep(i: nat, t: Trigger, doneLog: seq<Call>, done: seq<Change>) returns (log: seq<Call>, emitted: seq<Change>)
      requires Valid() && i < |names|
      modifies MountedFields()
      ensures CascadeFrom(CurrentEnv(), States(), i + 1, t).slots == CascadeFrom(CurrentEnv(), old(States()), i, t).slots
      ensures log + CascadeFrom(CurrentEnv(), States(), i + 1, t).log == doneLog + CascadeFrom(CurrentEnv(), old(States()), i, t).log
      ensures emitted + CascadeFrom(CurrentEnv(), States(), i + 1, t).emitted
        == done + CascadeFrom(CurrentEnv(), old(States()), i, t).emitted
    {
      ghost var env := CurrentEnv();
      ghost var start := States();
      var n := names[i];
      assert n in names;
      var c := config[n];
      log := doneLog;
      emitted := done;
      if c.deps.Some? && t.name in c.deps.value {
        var _ := UpdateField(n);
        ghost var updated := States();
        if c.effect.Some? {
          var muts := c.effect.value(context, GetFormProp(), t);
          assert TargetsKnown(muts, config);
          var em := ApplyMutations(muts);
          assert States() == EffectStep(env, updated, n, t).slots;
          CascadeEffectAt(env, start, i, t);
          ghost var rest := CascadeFrom(env, States(), i + 1, t);
          AppendAssoc(doneLog, [UpdateCall(n), EffectCall(n, t)], rest.log);
          AppendAssoc(done, em, rest.emitted);
          log := doneLog + [UpdateCall(n), EffectCall(n, t)];
          emitted := done + em;
        } else {
          CascadeUpdateAt(env, start, i, t);
          AppendAssoc(doneLog, [UpdateCall(n)], CascadeFrom(env, States(), i + 1, t).log);
          log := doneLog + [UpdateCall(n)];
        }
      } else {
        CascadeSkipAt(env, start, i, t);
      }
    }

    /** The `forEach` over the configuration in `broadcast`. */
    method BroadcastToDependents(t: Trigger) returns (log: seq<Call>, emitted: seq<Change>)
      requires Valid()
      modifies MountedFields()
      ensures States() == CascadeOver(CurrentEnv(), old(States()), names, t).slots
      ensures log == CascadeOver(CurrentEnv(), old(States()), names, t).log
      ensures emitted == CascadeOver(CurrentEnv(), old(States()), names, t).emitted
    {
      ghost var env := CurrentEnv();
      CascadeFromEnds(env, States(), t);
      ghost var total := CascadeFrom(env, States(), 0, t);
      log := [];
      emitted := [];
      var i := 0;
      while i < |names|
        invariant 0 <= i <= |names| && Shaped(env, States())
        invariant CascadeFrom(env, States(), i, t).slots == total.slots
        invariant log + CascadeFrom(env, States(), i, t).log == total.log
        invariant emitted + CascadeFrom(env, States(), i, t).emitted == total.emitted
      {
        log, emitted := BroadcastStep(i, t, log, emitted);
        i := i + 1;
      }
      CascadeFromEnds(env, States(), t);
    }

    /** `broadcast(name, type)`, one pass: for each configured entry in order
        whose `deps` include `name`, `updateField` and then its `effect`; then
        every subscriber, in order, receives the snapshot once. The returned
        notifications are the ones the effects' calls cause; in the source
        each of them re-enters `broadcast`. */
    method Broadcast(name: string, kind: ChangeType) returns (log: seq<Call>, deliveries: seq<Delivery>, emitted: seq<Change>)
      requires Valid()
      modifies MountedFields()
      ensures States() == CascadeOver(CurrentEnv(), old(States()), names, Trigger(name, kind)).slots
      ensures log == CascadeOver(CurrentEnv(), old(States()), names, Trigger(name, kind)).log
      ensures emitted == CascadeOver(CurrentEnv(), old(States()), names, Trigger(name, kind)).emitted
      ensures |deliveries| == |subscribers|
      ensures forall k | 0 <= k < |subscribers| :: deliveries[k] == Delivery(subscribers[k], GetFormProp())
    {
      log, emitted := BroadcastToDependents(Trigger(name, kind));
      deliveries := [];
      var j := 0;
      while j < |subscribers|
        invariant 0 <= j <= |subscribers|
        invariant |deliveries| == j
        invariant forall k | 0 <= k < j :: deliveries[k] == Delivery(subscribers[k], GetFormProp())
      {
        deliveries := deliveries + [Delivery(subscribers[j], GetFormProp())];
        j := j + 1;
      }
    }

    /** `submitForm()`, up to its deferred tick: every configured field is
        validated, in order. */
    method SubmitForm() returns (emitted: seq<Change>)
      requires Valid()
      modifies MountedFields()
      ensures States() == ForEachField(CurrentEnv(), old(States()), names, ValidateAction).slots
      ensures emitted == ForEachField(CurrentEnv(), old(States()), names, ValidateAction).emitted
      ensures forall k | k in refs && refs[k] != null :: refs[k].state == ValidatedState(old(refs[k].state), check)
    {
      ghost var before := States();
      ValidateAllIsPerField(CurrentEnv(), before);
      emitted := ForEachName(ValidateAction);
      forall k | k in refs && refs[k] != null
        ensures refs[k].state == ValidatedState(old(refs[k].state), check)
      {
        assert before[k] == Some(old(refs[k].state));
        assert States()[k] == Some(refs[k].state);
      }
    }

    /** The callback `submitForm` defers to the next tick: `onSubmit` is
        called, once, exactly when the form is valid, with the raw and the
        transformed values. */
    method CompleteSubmit() returns (submission: Option<Submission>)
      requires Valid()
      ensures submission.Some? <==> forall k | k in refs && refs[k] != null :: refs[k].GetError() == Undefined
      ensures submission.Some? ==> submission.value == Submission(GetValues(false), GetValues(true))
    {
      if IsValid() {
        submission := Some(Submission(GetValues(false), GetValues(true)));
      } else {
        submission := None;
      }
    }

    /** `resetForm()`: `resetField` on every configured name. */
    method ResetForm() returns (emitted: seq<Change>)
      requires Valid()
      modifies MountedFields()
      ensures States() == ForEachField(CurrentEnv(), old(States()), names, ResetAction).slots
      ensures emitted == ForEachField(CurrentEnv(), old(States()), names, ResetAction).emitted
      ensures forall k | k in refs && refs[k] != null ::
        refs[k].state == Spread(old(refs[k].state), InitialState(config[k], context))
    {
      ghost var before := States();
      ResetAllIsPerField(CurrentEnv(), before);
      emitted := ForEachName(ResetAction);
      forall k | k in refs && refs[k] != null
        ensures refs[k].state == Spread(old(refs[k].state), InitialState(config[k], context))
      {
        assert before[k] == Some(old(refs[k].state));
        assert States()[k] == Some(refs[k].state);
      }
    }

    /** `subscribe(cb)`: appends one callback; no field changes. */
    method Subscribe(cb: Subscriber)
      modifies this`subscribers
      ensures subscribers == old(subscribers) + [cb]
      ensures States() == old(States())
    {
      subscribers := subscribers + [cb];
    }
  }
}
