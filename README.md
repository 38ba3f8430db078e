# formx: the form-state engine, modelled in Dafny

formx is a React form library. A `Form` component owns one `Field` controller per
entry of an ordered configuration. Each field holds a state record with `value`,
`error`, an optional `schema`, and any extra props merged in. Whenever a field's
`value` or `error` changes, the field broadcasts the change. The form then
recomputes the props of every entry that lists the changed name in its `deps`,
runs that entry's `effect`, and hands a `{ values, errors }` snapshot to every
subscriber. The form also collects values, with or without each entry's
`transform`, and errors. It validates everything on submit and merges every
field's `initState` back in on reset.

The model separates this engine from React:

- `js_values.dfy` (`JsValues`): JavaScript values. An object is a
  `map<string, JsVal>`, and a key it lacks reads as `undefined`. The object
  spread that `setState` performs is the shallow merge `Spread`.
- `field.dfy` (`Fields`): the per-field transitions as functions on the state
  record, with the change notifications of `componentDidUpdate`. A `Field`
  class holds the state and has one method per operation. Each method returns
  the notifications it emits, in order.
- `form_state.dfy` (`FormState`): the form's reductions over a snapshot of the
  registry (`Slots`: name to `Some(state)` when the ref is mounted, `None`
  otherwise). It also holds the specifications of the `forEach` loops and of
  one `broadcast` pass, and the lemmas about them.
- `form.dfy` (`Forms`): the `Form` class. Its `refs` map holds the `Field`
  objects (`null` for an unmounted ref). Its methods mutate those objects in
  place and are proved against the `FormState` functions.

Choices that shape the model:

- `setState` is synchronous.
- The promise of `schema.validate(value)` is a given oracle `SchemaCheck` with
  three outcomes:
  - it resolves;
  - it rejects with an error list;
  - it rejects with something that has no `errors` list, which makes the
    rejection handler throw, so the state stays as it was.
- The oracle is a parameter of each `Field` operation that validates, not a part of the field. The form passes its own `check` on every call it makes. A caller driving a field directly is expected to pass the same oracle, since a schema object's `validate` is fixed by that object.
- An `effect` is caller code. It is modelled as the sequence of calls it makes
  on the mutable snapshot: `setValue`, `setError` and `validateField`.
- A broadcast is not re-entered. The notifications that an effect's calls
  cause are returned to the caller; in the source, each of them triggers a
  further broadcast.
- `initState` merges its argument into the state, because React's `setState`
  merges. A reset therefore keeps every key that `initState` omits. For example, with no `initState` the typed value
  survives a reset.
- `updateField` hands `update` a callback meant to validate the field, but
  `update` takes one argument and never calls it. `broadcast` therefore
  recomputes props and never re-validates a dependent.
  `FormState.CascadeWithoutEffects` states the consequence: without effects, a
  broadcast changes no value and no error.
- There is no validate-function path. A field is validated only through the
  `schema` in its state.

## Model

| member | source | states |
|---|---|---|
| JsValues.Spread | src/Field.tsx:68-70 | the shallow merge keeps every key of both objects; the new object's keys win and the old keys fill in the rest |
| Fields.SetValueState | src/Field.tsx:82-84 | afterwards `value` is the given value and every other key reads as before |
| Fields.SetErrorState | src/Field.tsx:86-88 | afterwards `error` is the given error and every other key reads as before |
| Fields.UpdateState | src/Field.tsx:59-66 | `value` and `error` keep their previous values even when the props carry those keys; every other key comes from the props when present, otherwise from the old state |
| Fields.ValidatedState | src/Field.tsx:46-57 | only `error` can change; with no truthy schema the state is unchanged; on acceptance `error` is `undefined`; on rejection it is the first message of the list, or `undefined` for an empty list; on a malformed rejection the state is unchanged |
| Fields.Notifications | src/Field.tsx:29-36 | `'value'` is emitted iff `value` changed and `'error'` iff `error` changed; both carry the field's name; `'value'` comes first; nothing is emitted iff neither changed |
| Fields.Field.constructor | src/Field.tsx:20-23 | the initial state is taken wholesale |
| Fields.Field.GetValue | src/Field.tsx:38-40 | the state's `value`, or `undefined` when the key is absent |
| Fields.Field.GetError | src/Field.tsx:42-44 | the state's `error`, or `undefined` when the key is absent |
| Fields.Field.Validate | src/Field.tsx:46-57 | the new state is the validated state; the value is unchanged; the notifications match the change |
| Fields.Field.Update | src/Field.tsx:59-66 | props are merged with `value` and `error` pinned, so nothing is emitted |
| Fields.Field.InitState | src/Field.tsx:68-70 | keys of the argument take its values; every other key keeps its previous value |
| Fields.Field.OnChange | src/Field.tsx:72-76 | the value is set first, then the new value is validated; the notifications of both steps are emitted in that order; the value afterwards is the given one |
| Fields.Field.OnBlur | src/Field.tsx:78-80 | validates without changing the value |
| Fields.Field.SetValue | src/Field.tsx:82-84 | only `value` changes; exactly one `'value'` notification when it differs, otherwise none |
| Fields.Field.SetError | src/Field.tsx:86-88 | only `error` changes; exactly one `'error'` notification when it differs, otherwise none |
| FormState.CollectSpec | src/Form.tsx:100-119 | the registry reduction holds exactly the entries the step picks, each with the picked value, and keeps the seed's other entries |
| FormState.Values | src/Form.tsx:99-120 | `getValues()` maps exactly the mounted fields, each to its current value |
| FormState.Errors | src/Form.tsx:122-133 | `getErrors()` maps exactly the mounted fields whose error is not `undefined`, each to that error |
| FormState.TransformedValues | src/Form.tsx:104-111 | `getValues(true)` maps exactly the mounted fields: to `transform(context, snapshot, value)` when the entry has a transform, to the raw value otherwise |
| FormState.ValidIffNoErrors | src/Form.tsx:210-215 | `isValid()` holds iff `getErrors()` is empty, iff no mounted field has a defined error |
| FormState.TouchSlots | src/Form.tsx:145-154 | a per-name operation changes nothing when the ref is unmounted; otherwise only the named field changes, by that field's own transition |
| FormState.PropsFor | src/Form.tsx:164-173 | the props `update` receives are the entry's `props(context, snapshot)` with the keys of `applyProps` overriding them |
| FormState.MutationsTouchOnlyTargets | src/Form.tsx:142-159 | an effect's calls change no field they do not name and change no mount |
| FormState.ForEachIsPerField | src/Form.tsx:217-232 | validating or resetting every name gives each mounted field exactly its own transition from its own previous state, whatever the order; other slots are unchanged |
| FormState.ValidateAllIsPerField | src/Form.tsx:217-220 | after the submit loop each mounted field holds its validated previous state; unmounted slots stay unmounted |
| FormState.ResetAllIsPerField | src/Form.tsx:228-232 | after the reset loop each mounted field holds its previous state merged with its `initState(context)`; unmounted slots stay unmounted |
| FormState.ResetFormRestoresInitialKeys | src/Form.tsx:178-185 | after a reset, a key that `initState` returns holds that value, and any other key keeps its value from before the reset |
| FormState.UpdateAllKeepsValuesAndErrors | src/Form.tsx:95-97 | recomputing every field's props keeps every value, error and mount and emits nothing |
| FormState.SnapshotKept | src/Form.tsx:135-140 | when every value, error and mount is kept, `getFormProp()` returns the same snapshot |
| FormState.UpdateAllSetsProps | src/Form.tsx:95-97 | after recomputing the props of distinct names, each mounted field among them holds its previous state merged with `props(context, snapshot)` and `applyProps`, where the snapshot is the one taken before the pass, with its `value` and `error` pinned |
| FormState.CascadeSetsProps | src/Form.tsx:187-192 | when no dependent has an effect, each mounted dependent ends as its previous state merged with the props computed from the snapshot taken before the broadcast, with its `value` and `error` pinned |
| FormState.CascadeFollowsPlan | src/Form.tsx:187-200 | whatever the states and whatever the effects do, a broadcast makes exactly the calls its configuration plans, in the planned order |
| FormState.Dependents | src/Form.tsx:188-189 | a name is a dependent iff it is configured and its `deps` include the changed name |
| FormState.DependentsInOrder | src/Form.tsx:188 | dependents appear in configuration order |
| FormState.PlanUpdatesDependents | src/Form.tsx:187-200 | the planned `updateField` calls are exactly the dependents, in configuration order |
| FormState.PlanPairsEffects | src/Form.tsx:187-200 | every planned call is about a configured entry; each effect call directly follows its own field's update and carries the trigger; every dependent with an effect gets one |
| FormState.CascadeWithoutEffects | src/Form.tsx:187-192 | without effects among the dependents, a broadcast changes no value, no error and no mount, emits nothing, and leaves non-dependents untouched |
| FormState.CascadeKeepsMounts | src/Form.tsx:187-200 | whatever the effects do, a broadcast mounts and unmounts nothing and keeps the registry's names |
| FormState.CascadeFrame | src/Form.tsx:187-200 | a broadcast leaves a field exactly as it was when the field is not a dependent and no dependent's effect names it in its calls |
| FormState.ForEachTouchesOnlyTodo | src/Form.tsx:217-232 | a pass over some names keeps the registry's names and leaves every ref outside those names exactly as it was |
| Forms.Form.GetValues | src/Form.tsx:99-120 | exactly the mounted refs, each with its field's value, or with its transformed value when asked for and configured |
| Forms.Form.GetErrors | src/Form.tsx:122-133 | exactly the mounted refs whose error is defined, each with that error |
| Forms.Form.GetFormProp | src/Form.tsx:135-140 | the snapshot is `{ values: getValues(), errors: getErrors() }` |
| Forms.Form.IsValid | src/Form.tsx:210-215 | true iff `getErrors()` is empty, iff no mounted field has a defined error |
| Forms.Form.constructor | src/Form.tsx:67-87 | the form keeps the configuration, context, `applyProps` and schema oracle it is given; one ref per configured name; a rendered field is mounted with `initState(context)`, or `{}` when the entry has none; no subscribers |
| Forms.Form.UpdateField | src/Form.tsx:161-176 | the named field alone receives recomputed props from the current snapshot; nothing is emitted |
| Forms.Form.ResetField | src/Form.tsx:178-185 | only the named field changes, and only when mounted: `initState(context)`, or `{}`, is merged in |
| Forms.Form.ValidateField | src/Form.tsx:204-208 | only the named field changes, and only when mounted: it is validated |
| Forms.Form.SetFieldValue | src/Form.tsx:145-149 | only the named field's `value` changes, and only when mounted |
| Forms.Form.SetFieldError | src/Form.tsx:150-154 | only the named field's `error` changes, and only when mounted |
| Forms.Form.ApplyMutations | src/Form.tsx:193-197 | an effect's calls are applied one after another, in order, with their notifications concatenated |
| Forms.Form.UpdateAllFields | src/Form.tsx:95-97 | every field's props are recomputed in order; each mounted field ends as its previous state merged with the props computed from the snapshot taken before the pass, with its value and error kept; nothing is emitted |
| Forms.Form.SetContext | src/Form.tsx:89-93 | a context of another identity recomputes every field's props with the new context, from the snapshot taken before; the same context changes nothing |
| Forms.Form.Broadcast | src/Form.tsx:187-202 | the fields end as one broadcast pass specifies and the calls follow its plan; then each subscriber, in order, receives the current `{ values, errors }` once |
| Forms.Form.SubmitForm | src/Form.tsx:217-220 | every configured field is validated; each mounted field ends as its own validated previous state |
| Forms.Form.CompleteSubmit | src/Form.tsx:221-225 | `onSubmit` is called at most once, and exactly when no mounted field has a defined error, with the raw and the transformed values |
| Forms.Form.ResetForm | src/Form.tsx:228-232 | every configured field is reset; each mounted field ends as its previous state merged with its `initState(context)` |
| Forms.Form.Subscribe | src/Form.tsx:242-244 | exactly one callback is appended; the earlier ones and every field are unchanged |

## Left out

- Rendering and wiring: `render`, `getFieldsStack`, `createAPIProps`, `FormContext`, `focusField`. These are UI plumbing with no state of their own.
- The React hooks in src/useSubscribe.tsx and src/useFormContext.tsx, the re-exports in src/index.tsx, the type-only src/types.ts and the reflection helpers in src/util.ts. They hold none of the engine's logic.
- The deferred `updateField` each field requests on mount is not scheduled by the model. The host runs it afterwards with `Forms.Form.UpdateField`, once per mounted name.
- The zero-delay timer between `submitForm`'s validations and its delivery. It is modelled as two steps, `SubmitForm` then `CompleteSubmit`, with the validations settled in between. Their race is not modelled.
- Asynchronous promise timing in `validate`. Validation settles within the call that starts it.
- Re-entrant broadcasts. `Forms.Form.Broadcast` returns the notifications the effects' calls cause, instead of re-entering itself for each.
- Fields.Field.OnChange: returns the `'value'` notification of its first step instead of broadcasting it before `validate` runs (src/Field.tsx:73-75). In the source that broadcast updates the dependents and runs their effects in between, and an effect may call `setValue`, `setError` or `validateField` on this very field. So "the value afterwards is the given one" and "the new value is validated" hold in the source only when that broadcast leaves this field alone, as `FormState.CascadeFrame` describes.
- Forms.Form.SubmitForm: returns the notifications of every field's validation instead of broadcasting each one right after that field inside the loop (src/Form.tsx:218-220). "Each mounted field ends as its own validated previous state" therefore holds in the source only when those broadcasts change no field of the form.
- Forms.Form.ResetForm: returns the notifications of every field's reset instead of broadcasting each one right after that field inside the loop (src/Form.tsx:229-231). "Each mounted field ends merged with its `initState(context)`" therefore holds in the source only when those broadcasts change no field of the form.
- Effects as arbitrary code. An effect is its sequence of `setValue`, `setError` and `validateField` calls on the snapshot it is given. Any other behaviour is not modelled.
- Forms.Form.UpdateField, ResetField, ValidateField, SetFieldValue, SetFieldError: a name that is not configured throws a TypeError in the source. The model requires a configured name, and effects that name only configured fields.
- A `schema` that is truthy but has no callable `validate` throws in the source. The model always gives the schema a verdict.
- Numbers are unbounded integers, so floating point and `NaN` are not modelled. An object is compared by its identity only, as `!==` does.
- Object key order. Records are maps, so the insertion order of `getValues`/`getErrors` results, and JavaScript's reordering of integer-like keys, are not modelled. The iteration order of the configuration is the explicit `names` sequence.
- A configuration or an `applyProps` that changes after mount. The source reads both from the component's props on every call, while its refs stay as they were built at mount, so a name added later has no ref and throws. The model fixes the configuration and `applyProps` for the form's lifetime.
- Refs that mount or unmount after the form has mounted. The set of mounted fields is fixed when the form is built.
- The `onSubmit` and subscriber callbacks are not run. The model returns their arguments: a `Submission`, or one `Delivery` per subscriber.
