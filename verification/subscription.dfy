/** `useHasActivePplxSub`: whether the fetched user settings show a paying
    or trialing subscription. The settings query is an input: its data is
    `undefined` until it has loaded. */
module Subscription {
  import opened JsValue

  const ActiveStatuses: set<string> := {"active", "trialing"}

  /** `validateHasActivePplxSub`: settings that are neither `null` nor
      `undefined` and whose `subscriptionStatus` is "active" or "trialing". */
  function ValidateHasActivePplxSub(settings: Value): (r: bool)
    ensures Nullish(settings) ==> !r
    ensures r <==> !Nullish(settings) && Prop(settings, "subscriptionStatus").Str?
                   && Prop(settings, "subscriptionStatus").s in ActiveStatuses
  {
    !Nullish(settings)
    && (Prop(settings, "subscriptionStatus") == Str("active")
        || Prop(settings, "subscriptionStatus") == Str("trialing"))
  }

  /** The hook's `query.data && validateHasActivePplxSub(query.data)`: the
      data itself when it is falsy (so `undefined` before loading), the
      verdict otherwise. */
  function HasActivePplxSub(data: Value): (r: Value)
    ensures !Truthy(data) ==> r == data
    ensures Truthy(r) <==> Truthy(data) && ValidateHasActivePplxSub(data)
    ensures Truthy(data) ==> r.Bool?
  {
    if !Truthy(data) then data else Bool(ValidateHasActivePplxSub(data))
  }

  /** Only the two statuses count: any other status string, or none at all,
      is not an active subscription. */
  lemma OtherStatusesInactive(settings: map<string, Value>, status: string)
    requires status != "active" && status != "trialing"
    ensures !ValidateHasActivePplxSub(Obj(settings["subscriptionStatus" := Str(status)]))
    ensures "subscriptionStatus" !in settings ==> !ValidateHasActivePplxSub(Obj(settings))
    ensures ValidateHasActivePplxSub(Obj(settings["subscriptionStatus" := Str("active")]))
    ensures ValidateHasActivePplxSub(Obj(settings["subscriptionStatus" := Str("trialing")]))
  {
  }
}
