// Which edits of the models are refused.

module ModelRefusals {
  // Every edit by the models it finds: when it goes through, and what it is refused for.

  import opened Wrappers
  import opened CodeUnits
  import opened OwnedOrder
  import opened ModelMembership

  // The models that an edit finds: those of the first list there is of the three the caller, the
  // Built-in provider and the template may give, and the overlay's own.
  ghost predicate IsInherited(ctx: Context, current: Option<Overlay>, id: Id) {
    if ctx.membership.Some? then id in ctx.membership.value
    else if ctx.builtin.Some? && ctx.builtin.value.Some? then id in ctx.builtin.value.value
    else current.Some? && ctx.template.Some? && id in ctx.template.value
  }

  ghost predicate IsOwn(current: Option<Overlay>, id: Id) {
    current.Some? && id in current.value.personal
  }

  ghost predicate IsModel(ctx: Context, current: Option<Overlay>, id: Id) {
    IsInherited(ctx, current, id) || IsOwn(current, id)
  }

  ghost predicate HasProvider(ctx: Context, current: Option<Overlay>) {
    current.Some? || ctx.builtin.Some?
  }

  // Only own models can be renamed or deleted, and never to a name that is taken.
  ghost predicate MayRename(ctx: Context, current: Option<Overlay>, from: Id, to: Id) {
    IsOwn(current, from) && !IsInherited(ctx, current, from) && !IsModel(ctx, current, to)
  }

  ghost predicate GoesThrough(ctx: Context, current: Option<Overlay>, edit: Edit) {
    match edit
    case Add(id) => Trim(id) != [] && HasProvider(ctx, current) && !IsModel(ctx, current, Trim(id))
    case Delete(id) => Trim(id) != [] && IsOwn(current, Trim(id)) && !IsInherited(ctx, current, Trim(id))
    case Rename(id, next) =>
      Trim(id) != [] && Trim(next) != [] && (Trim(id) == Trim(next) || MayRename(ctx, current, Trim(id), Trim(next)))
    case SaveDraft(id, next) =>
      && Trim(id) != [] && Trim(next) != []
      && if Trim(id) == Trim(next) then IsModel(ctx, current, Trim(id))
         else MayRename(ctx, current, Trim(id), Trim(next))
    case _ => HasProvider(ctx, current)
  }

  // An empty name is always the first thing that is wrong with it.
  ghost predicate NamesNothing(edit: Edit) {
    match edit
    case Add(id) => Trim(id) == []
    case Delete(id) => Trim(id) == []
    case Rename(id, next) => Trim(id) == [] || Trim(next) == []
    case SaveDraft(id, next) => Trim(id) == [] || Trim(next) == []
    case _ => false
  }

  // Each reason is true of what the edit found.
  ghost predicate IsTrue(ctx: Context, current: Option<Overlay>, edit: Edit, reason: Refusal) {
    match reason
    case EmptyId => NamesNothing(edit)
    case NoProvider => !HasProvider(ctx, current)
    case InheritedModel =>
      (edit.Rename? || edit.SaveDraft? || edit.Delete?) && IsInherited(ctx, current, Trim(edit.id))
    case NoPersonalModel => (edit.Rename? || edit.Delete?) && !IsModel(ctx, current, Trim(edit.id))
    case NoModel => edit.SaveDraft? && !IsModel(ctx, current, Trim(edit.id))
    case ModelExists =>
      || (edit.Add? && IsModel(ctx, current, Trim(edit.id)))
      || ((edit.Rename? || edit.SaveDraft?) && IsModel(ctx, current, Trim(edit.next)))
  }

  lemma {:induction false} InheritedOnes(ctx: Context, current: Option<Overlay>, id: Id)
    ensures id in Inherited(Seen(ctx, current)) <==> IsInherited(ctx, current, id)
  {
  }

  // In any context and from any overlay: an edit goes through exactly as said, and is otherwise
  // refused for a reason that is true.
  lemma {:induction false} EditsGoThroughExactlyWhen(ctx: Context, current: Option<Overlay>, edit: Edit)
    ensures Apply(ctx, current, edit).Ok? <==> GoesThrough(ctx, current, edit)
    ensures Apply(ctx, current, edit).Err? ==> IsTrue(ctx, current, edit, Apply(ctx, current, edit).error)
    ensures NamesNothing(edit) ==> Apply(ctx, current, edit) == Err(EmptyId)
  {
    hide Inherited, IsInherited, ResolveOwnedOrder, Trim, SaveOverlay;
    match edit
    case Add(id) => InheritedOnes(ctx, current, Trim(id));
    case Delete(id) => InheritedOnes(ctx, current, Trim(id));
    case Rename(id, next) =>
      InheritedOnes(ctx, current, Trim(id));
      InheritedOnes(ctx, current, Trim(next));
    case SaveDraft(id, next) =>
      InheritedOnes(ctx, current, Trim(id));
      InheritedOnes(ctx, current, Trim(next));
    case Reorder(_) =>
    case SaveProvider => SavingNeedsAProvider(ctx, current);
  }

  lemma {:induction false} SavingNeedsAProvider(ctx: Context, current: Option<Overlay>)
    ensures var r := SaveOverlay(Seen(ctx, current), current);
            (r.Ok? <==> HasProvider(ctx, current)) && (r.Err? ==> r.error == NoProvider)
  {
  }
}
