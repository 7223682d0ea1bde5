// packages/provider/src/config-service.ts

module ModelMembership {
  // The edits of one provider's models, as transformations of its personal overlay.

  import opened Wrappers
  import opened CodeUnits
  import opened OwnedOrder
  import opened OrderLaws

  // The overlay's own ids, and the order if there is one.
  datatype Overlay = Overlay(personal: seq<Id>, order: Option<seq<Id>>)

  // Where an edit finds the inherited models: the caller's own list of them, if it passes one; the
  // Built-in provider of the same id, which may have a list; the template the provider was made
  // from. Every edit reads these anew.
  datatype Context = Context(membership: Option<seq<Id>>, builtin: Option<Option<seq<Id>>>, template: Option<seq<Id>>)

  function OrElse(ids: Option<seq<Id>>, other: seq<Id>): (r: seq<Id>) {
    if ids.Some? then ids.value else other
  }

  // A Built-in provider without a list leaves the choice to the template.
  function Inherited(ctx: Context): (ids: seq<Id>) {
    var fromTemplate := OrElse(ctx.template, []);
    OrElse(ctx.membership, if ctx.builtin.Some? then OrElse(ctx.builtin.value, fromTemplate) else fromTemplate)
  }

  // Reordering models and saving the provider take the models of one of the two, and never look
  // further.
  function InheritedAtOnce(ctx: Context): (ids: seq<Id>) {
    OrElse(ctx.membership, if ctx.builtin.Some? then OrElse(ctx.builtin.value, []) else OrElse(ctx.template, []))
  }

  datatype Edit =
    | Add(id: Id)
    | Rename(id: Id, next: Id)
    | SaveDraft(id: Id, next: Id)
    | Delete(id: Id)
    | Reorder(ids: seq<Id>)
    | SaveProvider

  datatype Refusal = EmptyId | NoProvider | NoModel | ModelExists | NoPersonalModel | InheritedModel

  type Edited = Result<Option<Overlay>, Refusal>

  // Only inherited providers get an overlay on demand.
  function Writable(ctx: Context, current: Option<Overlay>): (r: Option<Overlay>) {
    if current.Some? then current
    else if ctx.builtin.Some? then Some(Overlay([], None))
    else None
  }

  function Written(ctx: Context, personal: seq<Id>, requested: seq<Id>): (r: Edited) {
    Ok(Some(Overlay(personal, Some(ResolveOwnedOrder(Inherited(ctx), personal, requested)))))
  }

  function Requested(o: Overlay): (ids: seq<Id>) {
    OrElse(o.order, [])
  }

  function AddModel(ctx: Context, current: Option<Overlay>, modelId: Id): (r: Edited) {
    var id := Trim(modelId);
    if id == [] then Err(EmptyId) else
    match Writable(ctx, current)
    case None => Err(NoProvider)
    case Some(o) =>
      if id in Inherited(ctx) || id in o.personal then Err(ModelExists)
      else Written(ctx, o.personal + [id], Requested(o))
  }

  function RenameModel(ctx: Context, current: Option<Overlay>, currentId: Id, nextId: Id): (r: Edited) {
    var from, to := Trim(currentId), Trim(nextId);
    if from == [] || to == [] then Err(EmptyId)
    else if from == to then Ok(current)
    else if from in Inherited(ctx) then Err(InheritedModel)
    else if current.None? || from !in current.value.personal then Err(NoPersonalModel)
    else if to in current.value.personal || to in Inherited(ctx) then Err(ModelExists)
    else Written(ctx, Renamed(current.value.personal, from, to), Renamed(Requested(current.value), from, to))
  }

  // Saving a draft renames the model if its id was edited.
  function SaveModelDraft(ctx: Context, current: Option<Overlay>, originalId: Id, nextId: Id): (r: Edited) {
    var from, to := Trim(originalId), Trim(nextId);
    var personal := if current.Some? then current.value.personal else [];
    if from == [] || to == [] then Err(EmptyId)
    else if from != to && from in Inherited(ctx) then Err(InheritedModel)
    else if from != to && to in Inherited(ctx) then Err(ModelExists)
    else if from !in Inherited(ctx) && from !in personal then Err(NoModel)
    else if from == to then Ok(current)
    else if to in personal then Err(ModelExists)
    else Written(ctx, Renamed(personal, from, to), Renamed(Requested(current.value), from, to))
  }

  function DeleteModel(ctx: Context, current: Option<Overlay>, modelId: Id): (r: Edited) {
    var id := Trim(modelId);
    if id == [] then Err(EmptyId)
    else if id in Inherited(ctx) then Err(InheritedModel)
    else if current.None? || id !in current.value.personal then Err(NoPersonalModel)
    else Written(ctx, Except(current.value.personal, {id}), Requested(current.value))
  }

  function ReorderModels(ctx: Context, current: Option<Overlay>, ids: seq<Id>): (r: Edited) {
    match Writable(ctx, current)
    case None => Err(NoProvider)
    case Some(o) => Ok(Some(Overlay(o.personal, Some(ResolveOwnedOrder(InheritedAtOnce(ctx), o.personal, ids)))))
  }

  // Saving the provider's other fields puts the membership in order. Without an overlay there is
  // none.
  function SaveOverlay(ctx: Context, current: Option<Overlay>): (r: Edited) {
    match current
    case None => if ctx.builtin.Some? then Ok(Some(Overlay([], None))) else Err(NoProvider)
    case Some(o) =>
      var personal := Except(Unique(o.personal), Members(Unique(InheritedAtOnce(ctx))));
      var order :=
        if o.order.Some? then Some(ResolveOwnedOrder(InheritedAtOnce(ctx), personal, o.order.value)) else None;
      Ok(Some(Overlay(personal, order)))
  }

  // The template is named by the provider's own rule: without an overlay there is none.
  function Seen(ctx: Context, current: Option<Overlay>): (seen: Context) {
    if current.Some? then ctx else ctx.(template := None)
  }

  function Apply(ctx: Context, current: Option<Overlay>, edit: Edit): (r: Edited) {
    var seen := Seen(ctx, current);
    match edit
    case Add(id) => AddModel(seen, current, id)
    case Rename(id, next) => RenameModel(seen, current, id, next)
    case SaveDraft(id, next) => SaveModelDraft(seen, current, id, next)
    case Delete(id) => DeleteModel(seen, current, id)
    case Reorder(ids) => ReorderModels(seen, current, ids)
    case SaveProvider => SaveOverlay(seen, current)
  }

  // ---------------------------------------------------------------------------------------
  // Runs
  // ---------------------------------------------------------------------------------------

  datatype Step = Step(ctx: Context, edit: Edit)

  // A provider that is created without more has a written and empty order. A Built-in one that was
  // never edited has no overlay.
  const CREATED: Option<Overlay> := Some(Overlay([], Some([])))

  // A refused edit throws and writes nothing.
  function After(current: Option<Overlay>, step: Step): (next: Option<Overlay>) {
    match Apply(step.ctx, current, step.edit)
    case Ok(next) => next
    case Err(_) => current
  }

  function Run(start: Option<Overlay>, steps: seq<Step>): (current: Option<Overlay>) {
    if steps == [] then start else After(Run(start, steps[..|steps| - 1]), steps[|steps| - 1])
  }

  // ---------------------------------------------------------------------------------------
  // What every edit does, in any context and from any overlay
  // ---------------------------------------------------------------------------------------

  ghost predicate Apart(ctx: Context, o: Overlay) {
    forall id <- o.personal :: id !in Inherited(ctx)
  }

  // The edit is accepted and writes an order.
  predicate Writes(current: Option<Overlay>, step: Step) {
    && Apply(step.ctx, current, step.edit).Ok?
    && match step.edit
       case Rename(id, next) => Trim(id) != Trim(next)
       case SaveDraft(id, next) => Trim(id) != Trim(next)
       case SaveProvider => current.Some? && current.value.order.Some?
       case _ => true
  }

  function InheritedBy(current: Option<Overlay>, step: Step): (ids: seq<Id>) {
    var seen := Seen(step.ctx, current);
    if step.edit.Reorder? || step.edit.SaveProvider? then InheritedAtOnce(seen) else Inherited(seen)
  }

  // Whatever was there before, a written order lists every model of its moment exactly once.
  lemma {:induction false} WrittenOrderListsTheModels(current: Option<Overlay>, step: Step)
    requires Writes(current, step)
    ensures var o := After(current, step);
            o.Some? && o.value.order.Some?
            && Lists(o.value.order.value, InheritedBy(current, step), o.value.personal)
  {
    hide ResolveOwnedOrder, Lists, Inherited, InheritedAtOnce;
    var requested := WrittenOrderIsResolved(current, step);
    OrderListsEveryMemberOnce(InheritedBy(current, step), After(current, step).value.personal, requested);
  }

  lemma {:induction false} WrittenOrderIsResolved(current: Option<Overlay>, step: Step) returns (requested: seq<Id>)
    requires Writes(current, step)
    ensures var o := After(current, step);
            o.Some? && o.value.order
                       == Some(ResolveOwnedOrder(InheritedBy(current, step), o.value.personal, requested))
  {
    hide ResolveOwnedOrder, Lists, Inherited, InheritedAtOnce, Trim, Unique, Except;
    match step.edit
    case Add(_) => requested := if current.Some? then Requested(current.value) else [];
    case Rename(id, next) => requested := Renamed(Requested(current.value), Trim(id), Trim(next));
    case SaveDraft(id, next) => requested := Renamed(Requested(current.value), Trim(id), Trim(next));
    case Delete(_) => requested := Requested(current.value);
    case Reorder(ids) => requested := ids;
    case SaveProvider => requested := current.value.order.value;
  }

  // An accepted edit of the models neither makes nor repairs an overlap of own and inherited ids.
  lemma {:induction false} OverlapsStay(o: Overlay, step: Step)
    requires Apply(step.ctx, Some(o), step.edit).Ok? && !step.edit.SaveProvider?
    ensures After(Some(o), step).Some?
    ensures Apart(step.ctx, After(Some(o), step).value) <==> Apart(step.ctx, o)
  {
    hide ResolveOwnedOrder;
    match step.edit
    case Add(id) =>
    case Rename(id, next) => RenamedMembers(o.personal, Trim(id), Trim(next));
    case SaveDraft(id, next) => RenamedMembers(o.personal, Trim(id), Trim(next));
    case Delete(id) => ExceptFacts(o.personal, {Trim(id)});
    case Reorder(_) =>
  }

  // Saving the provider repairs whatever was wrong.
  lemma {:induction false} SavingRepairs(ctx: Context, o: Overlay)
    ensures var saved := After(Some(o), Step(ctx, SaveProvider)).value;
            && Distinct(saved.personal)
            && (forall id :: id in saved.personal <==> id in o.personal && id !in InheritedAtOnce(ctx))
            && (saved.order.Some? <==> o.order.Some?)
            && (saved.order.Some? ==> Lists(saved.order.value, InheritedAtOnce(ctx), saved.personal))
  {
    hide ResolveOwnedOrder;
    UniqueFacts(o.personal);
    UniqueFacts(InheritedAtOnce(ctx));
    ExceptFacts(Unique(o.personal), Members(Unique(InheritedAtOnce(ctx))));
    if o.order.Some? {
      WrittenOrderListsTheModels(Some(o), Step(ctx, SaveProvider));
    }
  }

  lemma {:induction false} RenamedIsDistinct(ids: seq<Id>, from: Id, to: Id)
    requires Distinct(ids) && to !in ids
    ensures Distinct(Renamed(ids, from, to))
  {
  }

  ghost predicate OwnIdsDistinct(current: Option<Overlay>) {
    current.Some? ==> Distinct(current.value.personal)
  }

  lemma {:induction false} DistinctAfter(current: Option<Overlay>, step: Step)
    requires OwnIdsDistinct(current)
    ensures OwnIdsDistinct(After(current, step))
  {
    hide ResolveOwnedOrder, Except, Unique;
    if current.Some? && Apply(step.ctx, current, step.edit).Ok? {
      var personal := current.value.personal;
      match step.edit
      case Add(id) =>
      case Rename(id, next) =>
        if Trim(id) != Trim(next) {
          RenamedIsDistinct(personal, Trim(id), Trim(next));
        }
      case SaveDraft(id, next) =>
        if Trim(id) != Trim(next) {
          RenamedIsDistinct(personal, Trim(id), Trim(next));
        }
      case Delete(id) => ExceptFacts(personal, {Trim(id)});
      case Reorder(_) =>
      case SaveProvider => SavingRepairs(step.ctx, current.value);
    }
  }

  // Own ids stay distinct over any sequence of edits, however the inherited models change between
  // them.
  lemma {:induction false} OwnIdsStayDistinct(start: Option<Overlay>, steps: seq<Step>)
    requires OwnIdsDistinct(start)
    ensures OwnIdsDistinct(Run(start, steps))
  {
    if steps != [] {
      OwnIdsStayDistinct(start, steps[..|steps| - 1]);
      DistinctAfter(Run(start, steps[..|steps| - 1]), steps[|steps| - 1]);
    }
  }

  // ---------------------------------------------------------------------------------------
  // When every run ends well
  // ---------------------------------------------------------------------------------------

  // Ids are trimmed when they are stored.
  predicate Proper(id: Id) {
    id != [] && Trim(id) == id
  }

  ghost predicate OverlayOk(ctx: Context, o: Overlay) {
    && Distinct(o.personal) && Apart(ctx, o)
    && o.order.Some? && Lists(o.order.value, Inherited(ctx), o.personal)
  }

  // Each edit that writes an order leaves own ids distinct and apart from the inherited ones, and
  // the order a permutation of both.
  ghost predicate EndsWell(start: Option<Overlay>, steps: seq<Step>) {
    steps != [] ==>
      var before, last := Run(start, steps[..|steps| - 1]), steps[|steps| - 1];
      var after := Run(start, steps);
      Writes(before, last) ==> after.Some? && OverlayOk(Seen(last.ctx, before), after.value)
  }

  ghost predicate Over(contexts: set<Context>, steps: seq<Step>) {
    forall step <- steps :: step.ctx in contexts
  }

  // The provider can be edited at all: it has an overlay, or may get one.
  ghost predicate Editable(start: Option<Overlay>, contexts: set<Context>) {
    exists ctx <- contexts :: start.Some? || ctx.builtin.Some?
  }

  // The same models are inherited whenever one looks.
  ghost predicate Agree(contexts: set<Context>) {
    forall c, d, id | c in contexts && d in contexts && Proper(id) :: id in Inherited(c) <==> id in Inherited(d)
  }

  // All edits look at the same inherited models: not so for a Built-in provider without a list of
  // models that also names a template with one.
  predicate Coherent(ctx: Context) {
    ctx.membership.Some? || ctx.builtin != Some(None) || OrElse(ctx.template, []) == []
  }

  ghost predicate ProperIds(current: Option<Overlay>) {
    current.Some? ==> forall id <- current.value.personal :: Proper(id)
  }

  ghost predicate Clean(contexts: set<Context>, current: Option<Overlay>) {
    current.Some? ==> Distinct(current.value.personal) && forall ctx <- contexts :: Apart(ctx, current.value)
  }

  // From any overlay, its order written, empty or missing: exactly if its own ids are clean, the
  // contexts agree and each is coherent; or nothing can be edited.
  lemma {:induction false} EveryRunEndsWellExactlyWhen(start: Option<Overlay>, contexts: set<Context>)
    requires ProperIds(start)
    ensures (forall steps | Over(contexts, steps) :: EndsWell(start, steps))
            <==> (Editable(start, contexts) ==>
                    Clean(contexts, start) && Agree(contexts) && forall ctx <- contexts :: Coherent(ctx))
  {
    if !Editable(start, contexts) {
      forall steps | Over(contexts, steps) ensures EndsWell(start, steps) {
        NothingIsEdited(start, contexts, steps);
      }
    } else if !Clean(contexts, start) {
      var steps := UncleanRun(start, contexts);
      assert !EndsWell(start, steps);
    } else if !Agree(contexts) {
      var steps := OverlappingRun(start, contexts);
      assert !EndsWell(start, steps);
    } else if exists ctx <- contexts :: !Coherent(ctx) {
      var ctx :| ctx in contexts && !Coherent(ctx);
      var steps := LosingRun(start, contexts, ctx);
      assert !EndsWell(start, steps);
    } else {
      forall steps | Over(contexts, steps) ensures EndsWell(start, steps) {
        AgreeingRunEndsWell(start, contexts, steps);
      }
    }
  }

  // Reordering leaves the own ids as they are.
  lemma {:induction false} UncleanRun(start: Option<Overlay>, contexts: set<Context>) returns (steps: seq<Step>)
    requires Editable(start, contexts) && !Clean(contexts, start)
    ensures Over(contexts, steps) && !EndsWell(start, steps)
  {
    hide ResolveOwnedOrder, Lists, Inherited, InheritedAtOnce, Distinct;
    var ctx :| ctx in contexts && (Distinct(start.value.personal) ==> !Apart(ctx, start.value));
    var step := Step(ctx, Reorder([]));
    steps := [step];
    assert steps == [] + [step];
    OneMoreStep(start, [], step);
  }

  // For a provider that was just created: exactly if the contexts agree and each is coherent.
  lemma {:induction false} CreatedRunsEndWellExactlyWhen(contexts: set<Context>)
    ensures (forall steps | Over(contexts, steps) :: EndsWell(CREATED, steps))
            <==> Agree(contexts) && forall ctx <- contexts :: Coherent(ctx)
  {
    hide EndsWell, Coherent;
    EveryRunEndsWellExactlyWhen(CREATED, contexts);
  }

  lemma {:induction false} NothingIsEdited(start: Option<Overlay>, contexts: set<Context>, steps: seq<Step>)
    requires !Editable(start, contexts) && Over(contexts, steps)
    ensures Run(start, steps) == start && EndsWell(start, steps)
  {
    hide ResolveOwnedOrder, Trim, Unique, Except, Inherited, InheritedAtOnce, OverlayOk;
    if steps != [] {
      var n := |steps| - 1;
      assert steps[n] in steps;
      assert steps[n].ctx in contexts;
      NothingIsEdited(start, contexts, steps[..n]);
    }
  }

  lemma {:induction false} CleanAfter(contexts: set<Context>, current: Option<Overlay>, step: Step)
    requires Agree(contexts) && step.ctx in contexts && Coherent(step.ctx)
    requires Clean(contexts, current) && ProperIds(current)
    ensures Clean(contexts, After(current, step)) && ProperIds(After(current, step))
  {
    hide ResolveOwnedOrder, Except, Unique, Trim;
    DistinctAfter(current, step);
    if Apply(step.ctx, current, step.edit).Ok? && After(current, step).Some? {
      SeenIsThere(current, step);
      var next := After(current, step).value;
      forall id <- next.personal ensures Proper(id) && forall ctx <- contexts :: id !in Inherited(ctx) {
        NewIdsAreNew(current, step, id);
        if current.None? || id !in current.value.personal {
          assert id !in Inherited(step.ctx);
        }
      }
    }
  }

  // Where a first overlay is written, a coherent context does not look at the template.
  lemma {:induction false} SeenIsThere(current: Option<Overlay>, step: Step)
    requires Coherent(step.ctx) && Apply(step.ctx, current, step.edit).Ok? && After(current, step).Some?
    ensures Inherited(Seen(step.ctx, current)) == Inherited(step.ctx) == InheritedBy(current, step)
  {
    hide ResolveOwnedOrder, Except, Unique, Trim;
  }

  // What an edit adds is trimmed and not inherited.
  lemma {:induction false} NewIdsAreNew(current: Option<Overlay>, step: Step, id: Id)
    requires Apply(step.ctx, current, step.edit).Ok? && After(current, step).Some?
    requires id in After(current, step).value.personal
    ensures (current.Some? && id in current.value.personal) || (Proper(id) && id !in Inherited(Seen(step.ctx, current)))
  {
    hide ResolveOwnedOrder, Except, Unique, Trim;
    match step.edit
    case Add(added) => TrimTwice(added);
    case Rename(from, to) => RenamedIds(current, step, from, to);
    case SaveDraft(from, to) => RenamedIds(current, step, from, to);
    case Delete(gone) => ExceptFacts(current.value.personal, {Trim(gone)});
    case Reorder(_) =>
    case SaveProvider =>
      if current.Some? {
        SavingRepairs(step.ctx, current.value);
      }
  }

  lemma {:induction false} RenamedIds(current: Option<Overlay>, step: Step, from: Id, to: Id)
    requires step.edit == Rename(from, to) || step.edit == SaveDraft(from, to)
    requires Apply(step.ctx, current, step.edit).Ok? && After(current, step).Some?
    ensures forall id <- After(current, step).value.personal ::
              || (current.Some? && id in current.value.personal)
              || (Proper(id) && id !in Inherited(Seen(step.ctx, current)))
  {
    hide ResolveOwnedOrder, Trim;
    TrimTwice(to);
    if Trim(from) != Trim(to) {
      RenamedMembers(current.value.personal, Trim(from), Trim(to));
    }
  }

  lemma {:induction false} AgreeingRunEndsWell(start: Option<Overlay>, contexts: set<Context>, steps: seq<Step>)
    requires Clean(contexts, start) && ProperIds(start)
    requires Agree(contexts) && (forall ctx <- contexts :: Coherent(ctx)) && Over(contexts, steps)
    ensures Clean(contexts, Run(start, steps)) && ProperIds(Run(start, steps)) && EndsWell(start, steps)
  {
    if steps != [] {
      var n := |steps| - 1;
      var before := Run(start, steps[..n]);
      assert steps[n] in steps;
      AgreeingRunEndsWell(start, contexts, steps[..n]);
      CleanAfter(contexts, before, steps[n]);
      if Writes(before, steps[n]) {
        WrittenOrderListsTheModels(before, steps[n]);
        SeenIsThere(before, steps[n]);
      }
    }
  }

  lemma {:induction false} OneStep(start: Option<Overlay>, step: Step)
    ensures Run(start, [step]) == After(start, step)
  {
    assert [step][..0] == [];
  }

  lemma {:induction false} OneMoreStep(start: Option<Overlay>, steps: seq<Step>, step: Step)
    ensures Run(start, steps + [step]) == After(Run(start, steps), step)
    ensures var before := Run(start, steps);
            EndsWell(start, steps + [step])
            <==> (Writes(before, step) ==>
                    After(before, step).Some? && OverlayOk(Seen(step.ctx, before), After(before, step).value))
  {
    assert (steps + [step])[..|steps|] == steps;
  }

  // An order that misses inherited models, which are not looked for.
  lemma {:induction false} LosingRun(start: Option<Overlay>, contexts: set<Context>, ctx: Context)
    returns (steps: seq<Step>)
    requires Clean(contexts, start) && Editable(start, contexts) && ctx in contexts && !Coherent(ctx)
    ensures Over(contexts, steps) && !EndsWell(start, steps)
  {
    hide ResolveOwnedOrder, Distinct, Lists;
    var first := FirstEdit(start, contexts);
    var o := Run(start, first);
    var step := Step(ctx, Reorder([]));
    steps := first + [step];
    OneMoreStep(start, first, step);
    WrittenOrderListsTheModels(o, step);
    var missing := ctx.template.value[0];
    assert missing in Inherited(ctx) && missing !in InheritedAtOnce(ctx) && missing !in o.value.personal;
    NotListed(After(o, step).value.order.value, InheritedAtOnce(ctx), Inherited(ctx), o.value.personal, missing);
  }

  lemma {:induction false} NotListed(order: seq<Id>, ids: seq<Id>, all: seq<Id>, personal: seq<Id>, missing: Id)
    requires Lists(order, ids, personal) && missing in all && missing !in ids && missing !in personal
    ensures !Lists(order, all, personal)
  {
  }

  // A model that is added before it is inherited.
  lemma {:induction false} OverlappingRun(start: Option<Overlay>, contexts: set<Context>) returns (steps: seq<Step>)
    requires Clean(contexts, start) && Editable(start, contexts) && !Agree(contexts)
    ensures Over(contexts, steps) && !EndsWell(start, steps)
  {
    hide ResolveOwnedOrder, Trim, Distinct, Lists;
    var c, d, id :| c in contexts && d in contexts && Proper(id) && id !in Inherited(c) && id in Inherited(d);
    var first := FirstEdit(start, contexts);
    var o := Run(start, first).value;
    assert id !in o.personal by {
      assert start.Some? ==> Apart(d, start.value);
    }
    var added := first + [Step(c, Add(id))];
    OneMoreStep(start, first, Step(c, Add(id)));
    assert Run(start, added).Some? && Run(start, added).value.personal == o.personal + [id];
    steps := added + [Step(d, Reorder([]))];
    OneMoreStep(start, added, Step(d, Reorder([])));
    assert id in o.personal + [id];
  }

  lemma {:induction false} FirstEdit(start: Option<Overlay>, contexts: set<Context>) returns (steps: seq<Step>)
    requires Editable(start, contexts)
    ensures Over(contexts, steps) && Run(start, steps).Some?
    ensures Run(start, steps).value.personal == if start.Some? then start.value.personal else []
  {
    if start.Some? {
      steps := [];
    } else {
      var ctx :| ctx in contexts && ctx.builtin.Some?;
      steps := [Step(ctx, Reorder([]))];
      OneStep(start, steps[0]);
    }
  }

  // ---------------------------------------------------------------------------------------
  // What single edits do to the order, whatever it was before
  // ---------------------------------------------------------------------------------------

  // The order that lists the models as the overlay's order does. What the overlay's order does not
  // list comes before or after; its leftovers are dropped.
  function NormalOrder(ctx: Context, o: Overlay): (order: seq<Id>) {
    ResolveOwnedOrder(Inherited(ctx), o.personal, Requested(o))
  }

  function Normal(ctx: Context, o: Overlay): (o': Overlay) {
    Overlay(o.personal, Some(NormalOrder(ctx, o)))
  }

  // The overlay is normal exactly if its order lists every model once.
  lemma {:induction false} NormalExactlyWhenListed(ctx: Context, o: Overlay)
    ensures Normal(ctx, o) == o <==> o.order.Some? && Lists(o.order.value, Inherited(ctx), o.personal)
  {
    hide ResolveOwnedOrder;
    OrderListsEveryMemberOnce(Inherited(ctx), o.personal, Requested(o));
    if o.order.Some? && Lists(o.order.value, Inherited(ctx), o.personal) {
      ListedOrderIsKept(Inherited(ctx), o.personal, o.order.value);
    }
  }

  lemma {:induction false} NormalizingTwice(ctx: Context, o: Overlay)
    ensures Normal(ctx, Normal(ctx, o)) == Normal(ctx, o)
  {
    hide ResolveOwnedOrder;
    OrderListsEveryMemberOnce(Inherited(ctx), o.personal, Requested(o));
    NormalExactlyWhenListed(ctx, Normal(ctx, o));
  }

  // A new model goes to the end, unless the order still has a leftover of its name, which keeps
  // its place; the others stay as they are.
  lemma {:induction false} AddAppends(ctx: Context, o: Overlay, modelId: Id)
    requires AddModel(ctx, Some(o), modelId).Ok?
    ensures var id, o' := Trim(modelId), AddModel(ctx, Some(o), modelId).value.value;
            && o'.personal == o.personal + [id]
            && o'.order.Some? && Except(o'.order.value, {id}) == NormalOrder(ctx, o)
            && (id !in Requested(o) ==> o'.order.value == NormalOrder(ctx, o) + [id])
  {
    hide ResolveOwnedOrder, Except;
    OrderWithNew(Inherited(ctx), o.personal, Trim(modelId), Requested(o));
  }

  // A deleted model goes; the others stay as they are.
  lemma {:induction false} DeleteRemoves(ctx: Context, o: Overlay, modelId: Id)
    requires DeleteModel(ctx, Some(o), modelId).Ok?
    ensures var id := Trim(modelId);
            DeleteModel(ctx, Some(o), modelId)
            == Ok(Some(Overlay(Except(o.personal, {id}), Some(Except(NormalOrder(ctx, o), {id})))))
  {
    hide ResolveOwnedOrder, Except;
    OrderWithoutOne(Inherited(ctx), o.personal, Trim(modelId), Requested(o));
  }

  // With a leftover of the new name taken for the model itself.
  function Claimed(ctx: Context, o: Overlay, from: Id, to: Id): (order: seq<Id>) {
    ResolveOwnedOrder(Inherited(ctx), o.personal, Renamed(Requested(o), to, from))
  }

  // A renamed model keeps its place in both lists.
  lemma {:induction false} RenameKeepsPlaces(ctx: Context, o: Overlay, from: Id, to: Id)
    requires Trim(from) != Trim(to) && RenameModel(ctx, Some(o), from, to).Ok?
    ensures var a, b := Trim(from), Trim(to);
            && RenameModel(ctx, Some(o), from, to)
               == Ok(Some(Overlay(Renamed(o.personal, a, b), Some(Renamed(Claimed(ctx, o, a, b), a, b)))))
            && (b !in Requested(o) ==> Claimed(ctx, o, a, b) == NormalOrder(ctx, o))
  {
    hide ResolveOwnedOrder;
    var a, b := Trim(from), Trim(to);
    RenamedMerges(Requested(o), a, b);
    OrderOfRenamed(Inherited(ctx), o.personal, a, b, Renamed(Requested(o), b, a));
    if b !in Requested(o) {
      RenamedNone(Requested(o), b, a);
    }
  }

  // A draft with another id is a renaming.
  lemma {:induction false} DraftsRename(ctx: Context, current: Option<Overlay>, from: Id, to: Id)
    requires Trim(from) != Trim(to)
    ensures SaveModelDraft(ctx, current, from, to).Ok? <==> RenameModel(ctx, current, from, to).Ok?
    ensures RenameModel(ctx, current, from, to).Ok? ==>
              SaveModelDraft(ctx, current, from, to) == RenameModel(ctx, current, from, to)
  {
  }

  // Renaming back gives the old own ids and a normal order.
  lemma {:induction false} RenamingBack(ctx: Context, o: Overlay, from: Id, to: Id)
    requires Trim(from) != Trim(to) && RenameModel(ctx, Some(o), from, to).Ok?
    ensures RenameModel(ctx, RenameModel(ctx, Some(o), from, to).value, to, from)
              == Ok(Some(Overlay(o.personal, Some(Claimed(ctx, o, Trim(from), Trim(to))))))
  {
    hide ResolveOwnedOrder;
    var a, b := Trim(from), Trim(to);
    RenameKeepsPlaces(ctx, o, from, to);
    var claimed := Claimed(ctx, o, a, b);
    OrderListsEveryMemberOnce(Inherited(ctx), o.personal, Renamed(Requested(o), b, a));
    RenamedBack(o.personal, a, b);
    RenamedBack(claimed, a, b);
    RenamedMembers(o.personal, a, b);
    ListedOrderIsKept(Inherited(ctx), o.personal, claimed);
  }

  // So it undoes the renaming exactly if the order listed every model once.
  lemma {:induction false} RenameIsUndoneExactlyWhenListed(ctx: Context, o: Overlay, from: Id, to: Id)
    requires Trim(from) != Trim(to) && RenameModel(ctx, Some(o), from, to).Ok?
    ensures RenameModel(ctx, RenameModel(ctx, Some(o), from, to).value, to, from) == Ok(Some(o))
            <==> o.order.Some? && Lists(o.order.value, Inherited(ctx), o.personal)
  {
    hide ResolveOwnedOrder, RenameModel;
    var a, b := Trim(from), Trim(to);
    RenamingBack(ctx, o, from, to);
    OrderListsEveryMemberOnce(Inherited(ctx), o.personal, Renamed(Requested(o), b, a));
    if o.order.Some? && Lists(o.order.value, Inherited(ctx), o.personal) {
      NewNameIsNew(ctx, o, from, to);
      RenamedNone(Requested(o), b, a);
      NormalExactlyWhenListed(ctx, o);
    }
  }

  lemma {:induction false} NewNameIsNew(ctx: Context, o: Overlay, from: Id, to: Id)
    requires Trim(from) != Trim(to) && RenameModel(ctx, Some(o), from, to).Ok?
    ensures Trim(to) !in Inherited(ctx) && Trim(to) !in o.personal
  {
  }

  // Adding a model and deleting it again gives the old own ids and a normal order.
  lemma {:induction false} AddThenDelete(ctx: Context, o: Overlay, modelId: Id)
    requires AddModel(ctx, Some(o), modelId).Ok?
    ensures DeleteModel(ctx, AddModel(ctx, Some(o), modelId).value, modelId) == Ok(Some(Normal(ctx, o)))
  {
    hide ResolveOwnedOrder, Except;
    var id := Trim(modelId);
    AppendedGoes(o.personal, id);
    OrderIsEnough(Inherited(ctx), o.personal + [id], id, Requested(o));
  }

  // So it restores the overlay exactly if the order listed every model once.
  lemma {:induction false} AddThenDeleteRestoresExactlyWhenListed(ctx: Context, o: Overlay, modelId: Id)
    requires AddModel(ctx, Some(o), modelId).Ok?
    ensures DeleteModel(ctx, AddModel(ctx, Some(o), modelId).value, modelId) == Ok(Some(o))
            <==> o.order.Some? && Lists(o.order.value, Inherited(ctx), o.personal)
  {
    AddThenDelete(ctx, o, modelId);
    NormalExactlyWhenListed(ctx, o);
  }

  // ---------------------------------------------------------------------------------------
  // An order that is missing, empty or incomplete
  // ---------------------------------------------------------------------------------------

  ghost predicate NoLeftovers(ctx: Context, o: Overlay) {
    forall id <- Requested(o) :: id in Inherited(ctx) || id in o.personal
  }

  // An order without leftovers stands for its normal form: every edit of the models treats both
  // alike.
  lemma {:induction false} EditsSeeTheNormalOrder(ctx: Context, o: Overlay, edit: Edit)
    requires NoLeftovers(ctx, o) && !edit.SaveProvider?
    requires edit.Rename? || edit.SaveDraft? ==> Trim(edit.id) != Trim(edit.next)
    ensures Apply(ctx, Some(o), edit) == Apply(ctx, Some(Normal(ctx, o)), edit)
  {
    hide ResolveOwnedOrder, Except;
    OrderListsEveryMemberOnce(Inherited(ctx), o.personal, Requested(o));
    NormalizingTwice(ctx, o);
    match edit
    case Add(id) =>
      if AddModel(ctx, Some(o), id).Ok? {
        AddAppends(ctx, o, id);
        AddAppends(ctx, Normal(ctx, o), id);
      }
    case Rename(id, next) => RenamesSeeTheNormalOrder(ctx, o, id, next);
    case SaveDraft(id, next) =>
      RenamesSeeTheNormalOrder(ctx, o, id, next);
      DraftsRename(ctx, Some(o), id, next);
      DraftsRename(ctx, Some(Normal(ctx, o)), id, next);
    case Delete(id) =>
      if DeleteModel(ctx, Some(o), id).Ok? {
        DeleteRemoves(ctx, o, id);
        DeleteRemoves(ctx, Normal(ctx, o), id);
      }
    case Reorder(_) =>
  }

  lemma {:induction false} RenamesSeeTheNormalOrder(ctx: Context, o: Overlay, from: Id, to: Id)
    requires NoLeftovers(ctx, o) && Trim(from) != Trim(to)
    ensures RenameModel(ctx, Some(o), from, to) == RenameModel(ctx, Some(Normal(ctx, o)), from, to)
  {
    hide ResolveOwnedOrder;
    if RenameModel(ctx, Some(o), from, to).Ok? {
      OrderListsEveryMemberOnce(Inherited(ctx), o.personal, Requested(o));
      NormalizingTwice(ctx, o);
      RenameKeepsPlaces(ctx, o, from, to);
      RenameKeepsPlaces(ctx, Normal(ctx, o), from, to);
    }
  }

  // A missing or an empty order stands for the inherited models, then the own ones.
  lemma {:induction false} NoOrderIsTheDefaultOrder(ctx: Context, o: Overlay)
    requires Requested(o) == []
    ensures NoLeftovers(ctx, o)
    ensures NormalOrder(ctx, o) == Unique(Inherited(ctx)) + Except(Unique(o.personal), Members(Inherited(ctx)))
  {
    hide Except, Unique;
    var builtin, own := Unique(Inherited(ctx)), Own(Inherited(ctx), o.personal);
    UniqueFacts(Inherited(ctx));
    UniqueFacts([]);
    PartsOfOrder(Inherited(ctx), o.personal, []);
    ExceptNone(builtin, Members(Asked(Inherited(ctx), o.personal, [])));
    ExceptNone(own, Members(Asked(Inherited(ctx), o.personal, [])));
    assert Members(builtin) == Members(Inherited(ctx));
    SomeOrNone(Asked(Inherited(ctx), o.personal, []));
  }

  lemma {:induction false} SomeOrNone(ids: seq<Id>)
    ensures ids == [] || exists id :: id in ids
  {
    if ids != [] {
      assert ids[0] in ids;
    }
  }

  // ---------------------------------------------------------------------------------------
  // The order of the providers (packages/provider/src/resolver.ts)
  // ---------------------------------------------------------------------------------------

  // The keys of the effective providers: the Built-in ones, then those only Personal ones.
  function EffectiveProviders(builtinIds: seq<Id>, personalIds: seq<Id>): (ids: seq<Id>) {
    builtinIds + Except(personalIds, Members(builtinIds))
  }

  function ResolveProviderOrder(builtinIds: seq<Id>, personalIds: seq<Id>, family: set<Id>,
                                requested: seq<Id>): (order: seq<Id>) {
    var familyIds := Only(EffectiveProviders(builtinIds, personalIds), family);
    var builtin := Except(builtinIds, Members(familyIds));
    var personal := Except(Except(personalIds, Members(builtin)), Members(familyIds));
    familyIds + ResolveOwnedOrder(builtin, personal, requested)
  }

  // The resolver goes through every effective provider exactly once, those of a family first.
  lemma {:induction false} ProviderOrderListsEachOnce(builtinIds: seq<Id>, personalIds: seq<Id>, family: set<Id>,
                                                      requested: seq<Id>)
    requires Distinct(builtinIds) && Distinct(personalIds)
    ensures var order := ResolveProviderOrder(builtinIds, personalIds, family, requested);
            && Distinct(order)
            && (forall id :: id in order <==> id in EffectiveProviders(builtinIds, personalIds))
            && (forall i, j | 0 <= i < j < |order| :: order[j] in family ==> order[i] in family)
  {
    var all := EffectiveProviders(builtinIds, personalIds);
    var familyIds := Only(all, family);
    var builtin := Except(builtinIds, Members(familyIds));
    var personal := Except(Except(personalIds, Members(builtin)), Members(familyIds));
    var others := ResolveOwnedOrder(builtin, personal, requested);
    ExceptFacts(personalIds, Members(builtinIds));
    DistinctJoin(builtinIds, Except(personalIds, Members(builtinIds)));
    OnlyFacts(all, family);
    ExceptFacts(builtinIds, Members(familyIds));
    ExceptFacts(personalIds, Members(builtin));
    ExceptFacts(Except(personalIds, Members(builtin)), Members(familyIds));
    OrderListsEveryMemberOnce(builtin, personal, requested);
    DistinctJoin(familyIds, others);
    var order := familyIds + others;
    assert forall id <- others :: id !in family;
    forall i, j | 0 <= i < j < |order| && order[i] !in family ensures order[j] !in family {
      assert order[i] !in familyIds;
      assert order[j] == others[j - |familyIds|];
    }
  }
}
