/** The stop detail panel: how the form is filled when the panel opens, and what a save
    or a cancel dispatches. The backend call is an input: success or an error. */
module StopDetail {
  import opened Wrappers
  import opened Model
  import opened Actions
  import Seqs

  /** The form values the panel submits. */
  datatype StopForm = StopForm(
    stop_id: string, stop_name: string, stop_lat: real, stop_lon: real,
    stop_code: Option<string>, stop_desc: Option<string>)

  /** The selection the panel was opened with: a new stop (with coordinates that may be
      missing or not numeric, None here), an existing stop, or a selection in another mode. */
  datatype StopSelection = NewStop(lat: Option<real>, lng: Option<real>) | EditStop(stop: Stop) | OtherSelection

  /** The backend call the save issues: create for a new stop, update by id otherwise. */
  datatype ApiCall = PostStop(body: StopForm) | PutStop(id: string, body: StopForm)

  /** How the backend call ended. */
  datatype ApiResult = ApiOk | ApiError(status: int, message: string)

  datatype SubmitEffects = SubmitEffects(call: ApiCall, actions: seq<Action>)

  /** The form's default values before any selection. */
  function DefaultForm(): (f: StopForm)
    ensures f.stop_id == "" && f.stop_name == "" && f.stop_lat == 0.0 && f.stop_lon == 0.0
  {
    StopForm("", "", 0.0, 0.0, None, None)
  }

  /** `f?.value`. */
  function TextOf(f: Option<Field<string>>): (t: Option<string>)
    ensures t.Some? <==> f.Some?
    ensures t.Some? ==> t.value == f.value.value
  {
    if f.Some? then Some(f.value.value) else None
  }

  /** The form reset performed when the selection changes; None leaves the form as it is. */
  function ResetForm(sel: Option<StopSelection>): (f: Option<StopForm>)
    ensures sel.None? || sel.value.OtherSelection? ==> f.None?
    ensures sel.Some? && sel.value.NewStop? ==>
      && f.Some? && f.value.stop_id == "" && f.value.stop_name == ""
      && f.value.stop_lat == sel.value.lat.GetOr(0.0) && f.value.stop_lon == sel.value.lng.GetOr(0.0)
    ensures sel.Some? && sel.value.EditStop? ==>
      var s := sel.value.stop;
      && f.Some? && f.value.stop_id == s.id.value && f.value.stop_name == s.name.value
      && f.value.stop_lat == s.lat && f.value.stop_lon == s.lng
      && f.value.stop_code == TextOf(s.code) && f.value.stop_desc == TextOf(s.description)
  {
    match sel
    case None => None
    case Some(NewStop(lat, lng)) => Some(StopForm("", "", lat.GetOr(0.0), lng.GetOr(0.0), None, None))
    case Some(EditStop(s)) => Some(StopForm(s.id.value, s.name.value, s.lat, s.lng, TextOf(s.code), TextOf(s.description)))
    case Some(OtherSelection) => None
  }

  /** The stop written back after a successful save: the form's identifier, name and
      position, `code` and `description` only when non-empty, no other attribute. */
  function SavedStop(form: StopForm): (s: Stop)
    ensures s.id == Field(form.stop_id, None) && s.name == Field(form.stop_name, None)
    ensures s.lat == form.stop_lat && s.lng == form.stop_lon
    ensures s.code.Some? <==> form.stop_code.Some? && form.stop_code.value != ""
    ensures s.description.Some? <==> form.stop_desc.Some? && form.stop_desc.value != ""
    ensures s.code.Some? ==> s.code.value.value == form.stop_code.value
    ensures s.description.Some? ==> s.description.value.value == form.stop_desc.value
    ensures s.zoneId.None? && s.url.None? && s.locationType.None? && s.platformCode.None?
    ensures s.ttsName.None? && s.parentStation.None? && s.timezone.None?
    ensures s.wheelchairBoarding.None? && s.levelId.None? && s.access.None?
  {
    BareStop(Field(form.stop_id, None), Field(form.stop_name, None), form.stop_lat, form.stop_lon)
      .(code := TextAttribute(form.stop_code), description := TextAttribute(form.stop_desc))
  }

  predicate IsNew(sel: Option<StopSelection>) {
    sel.Some? && sel.value.NewStop?
  }

  /** Position of the first stop whose identifier is `id` (`findIndex`). */
  function StopWithId(stops: seq<Stop>, id: string): (k: Option<nat>)
    ensures k.None? <==> forall i :: 0 <= i < |stops| ==> stops[i].id.value != id
    ensures k.Some? ==> k.value < |stops| && stops[k.value].id.value == id
    ensures k.Some? ==> forall i :: 0 <= i < k.value ==> stops[i].id.value != id
  {
    Seqs.FindFirst(stops, (s: Stop) => s.id.value == id)
  }

  /** `onSubmit`. A new stop is created and overwrites the last stop of the collection (the
      placeholder, when there is one); an existing stop is updated and overwrites the first
      stop with the form's identifier. Success closes the panel; an error dispatches nothing
      and leaves it open. */
  function Submit(sel: Option<StopSelection>, stops: seq<Stop>, form: StopForm, result: ApiResult): (e: SubmitEffects)
    ensures IsNew(sel) ==> e.call == PostStop(form)
    ensures !IsNew(sel) ==> e.call == PutStop(form.stop_id, form)
    ensures result.ApiError? ==> e.actions == []
    ensures result.ApiOk? ==> |e.actions| >= 1 && e.actions[|e.actions| - 1] == CloseStopDetail
    ensures forall a :: a in e.actions ==> a == CloseStopDetail || (a.UpdateStop? && a.index < |stops| && a.stop == SavedStop(form))
    ensures result.ApiOk? && IsNew(sel) ==>
      e.actions == if |stops| > 0 then [UpdateStop(|stops| - 1, SavedStop(form)), CloseStopDetail] else [CloseStopDetail]
    ensures result.ApiOk? && !IsNew(sel) ==>
      var k := StopWithId(stops, form.stop_id);
      e.actions == if k.Some? then [UpdateStop(k.value, SavedStop(form)), CloseStopDetail] else [CloseStopDetail]
  {
    var call := if IsNew(sel) then PostStop(form) else PutStop(form.stop_id, form);
    if result.ApiError? then SubmitEffects(call, [])
    else if IsNew(sel) then
      if |stops| > 0 then SubmitEffects(call, [UpdateStop(|stops| - 1, SavedStop(form)), CloseStopDetail])
      else SubmitEffects(call, [CloseStopDetail])
    else
      match StopWithId(stops, form.stop_id)
      case Some(k) => SubmitEffects(call, [UpdateStop(k, SavedStop(form)), CloseStopDetail])
      case None => SubmitEffects(call, [CloseStopDetail])
  }

  /** `handleCancel`: a new stop's placeholder is removed before the panel closes; an edit
      only closes the panel. */
  function Cancel(sel: Option<StopSelection>): (actions: seq<Action>)
    ensures IsNew(sel) ==> actions == [RemoveLastStop, CloseStopDetail]
    ensures !IsNew(sel) ==> actions == [CloseStopDetail]
  {
    if IsNew(sel) then [RemoveLastStop, CloseStopDetail] else [CloseStopDetail]
  }

  /** Opening an existing stop and saving the untouched form writes back the same
      identifier, name, position, and the code and description it had when they were
      non-empty. */
  lemma EditRoundTrip(s: Stop)
    ensures var saved := SavedStop(ResetForm(Some(EditStop(s))).value);
      && saved.id.value == s.id.value && saved.name.value == s.name.value
      && saved.lat == s.lat && saved.lng == s.lng
      && (saved.code.Some? <==> Filled(s.code))
      && (saved.description.Some? <==> Filled(s.description))
      && (Filled(s.code) ==> saved.code.value.value == s.code.value.value)
      && (Filled(s.description) ==> saved.description.value.value == s.description.value.value)
  {
  }

  /** A save never adds or removes a stop: it only overwrites existing positions, so the
      number of stops is unchanged. */
  lemma SaveKeepsStopCount(sel: Option<StopSelection>, stops: seq<Stop>, form: StopForm, result: ApiResult)
    ensures forall a :: a in Submit(sel, stops, form, result).actions ==>
      !a.RemoveLastStop? && (a.UpdateStop? ==> a.index < |stops|)
  {
  }
}
