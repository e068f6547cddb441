/**
 * check_violation: classifying the lookup service's answer for one plate,
 * and the on-demand check command that validates the plate first. The HTTP
 * call and JSON decoding are not modelled: their outcome is a parameter,
 * either a decoded JSON object or the exception they raised.
 */
module Lookup {
  import opened Wrappers
  import opened Plates

  /** One violation record: a JSON object whose values are shown as text. */
  type Item = map<string, string>

  /** The "data" key of the response: absent, present but not a list, or a list. */
  datatype Payload = Absent | NotAList | Items(items: seq<Item>)

  /** The decoded response object: its "error" key, if any, and its "data" key. */
  datatype Response = Response(error: Option<string>, data: Payload)

  /** What requests.post(...).json() produced: a response, or an exception's text. */
  datatype Fetch = Fetched(response: Response) | Raised(reason: string)

  datatype Marker = Red | Green

  /** One embed field: the four looked-up values, the status marker and the status. */
  datatype Field = Field(vehicle: string, time: string, place: string, behaviour: string,
                         marker: Marker, status: string)

  /** The three answers: error text, "no violations" for the plate, or a report embed. */
  datatype Verdict = ErrorText(text: string) | NoViolations(plate: string) | Report(plate: string, fields: seq<Field>)

  const VehicleKey := "Loại phương tiện"
  const TimeKey := "Thời gian vi phạm"
  const PlaceKey := "Địa điểm vi phạm"
  const BehaviourKey := "Hành vi vi phạm"
  const StatusKey := "Trạng thái"
  /** The status that earns the red marker: "not yet penalised". */
  const Unpaid := "Chưa xử phạt"
  /** item.get's default. */
  const Missing := "N/A"
  const ErrorPrefix := "❌ "
  const FailurePrefix := "⚠️ Lỗi: "

  /** item.get(key, 'N/A') */
  function GetOr(item: Item, key: string): (v: string)
    ensures key in item ==> v == item[key]
    ensures key !in item ==> v == Missing
  {
    if key in item then item[key] else Missing
  }

  /** The embed field for one violation record. */
  function RenderItem(item: Item): (f: Field)
    ensures f.marker == Red <==> StatusKey in item && item[StatusKey] == Unpaid
    ensures VehicleKey in item ==> f.vehicle == item[VehicleKey]
    ensures VehicleKey !in item ==> f.vehicle == Missing
    ensures TimeKey in item ==> f.time == item[TimeKey]
    ensures TimeKey !in item ==> f.time == Missing
    ensures PlaceKey in item ==> f.place == item[PlaceKey]
    ensures PlaceKey !in item ==> f.place == Missing
    ensures BehaviourKey in item ==> f.behaviour == item[BehaviourKey]
    ensures BehaviourKey !in item ==> f.behaviour == Missing
    ensures StatusKey in item ==> f.status == item[StatusKey]
    ensures StatusKey !in item ==> f.status == Missing && f.marker == Green
  {
    Field(GetOr(item, VehicleKey), GetOr(item, TimeKey), GetOr(item, PlaceKey), GetOr(item, BehaviourKey),
          if StatusKey in item && item[StatusKey] == Unpaid then Red else Green,
          GetOr(item, StatusKey))
  }

  /**
   * check_violation: an "error" key wins; a missing or non-list "data" is
   * "no violations"; any list, the empty one included, is a report with one
   * field per item in order; an exception becomes error text.
   */
  function CheckViolation(plate: string, outcome: Fetch): (v: Verdict)
    ensures v.ErrorText? <==> outcome.Raised? || outcome.response.error.Some?
    ensures outcome.Raised? ==> v.text == FailurePrefix + outcome.reason
    ensures outcome.Fetched? && outcome.response.error.Some? ==> v.text == ErrorPrefix + outcome.response.error.value
    ensures v.NoViolations? <==> outcome.Fetched? && outcome.response.error.None? && !outcome.response.data.Items?
    ensures v.NoViolations? ==> v.plate == plate
    ensures v.Report? ==> v.plate == plate && |v.fields| == |outcome.response.data.items|
    ensures v.Report? ==> forall i :: 0 <= i < |v.fields| ==> v.fields[i] == RenderItem(outcome.response.data.items[i])
  {
    match outcome
    case Raised(reason) => ErrorText(FailurePrefix + reason)
    case Fetched(response) =>
      if response.error.Some? then ErrorText(ErrorPrefix + response.error.value)
      else if !response.data.Items? then NoViolations(plate)
      else Report(plate, seq(|response.data.items|, i requires 0 <= i < |response.data.items| => RenderItem(response.data.items[i])))
  }

  /** An empty "data" list is still a list: it yields an empty report, not "no violations". */
  lemma EmptyListIsEmptyReport(plate: string)
    ensures CheckViolation(plate, Fetched(Response(None, Items([])))) == Report(plate, [])
  {
  }

  /** The "error" key wins whatever "data" holds. */
  lemma ErrorWins(plate: string, e: string, d: Payload)
    ensures CheckViolation(plate, Fetched(Response(Some(e), d))) == ErrorText(ErrorPrefix + e)
  {
  }

  datatype CheckReply = InvalidPlate | Answered(plate: string, verdict: Verdict)

  /**
   * The check command: a text that does not normalise to a valid plate is
   * refused before any lookup; otherwise the normalised plate is looked up
   * and its verdict relayed.
   */
  function CheckCommand(raw: string, outcome: Fetch): (r: CheckReply)
    ensures r.InvalidPlate? <==> !IsValidPlate(Normalize(raw))
    ensures r.Answered? ==> r.plate == Normalize(raw) && 8 <= |r.plate| <= 10
    ensures r.Answered? ==> r.verdict == CheckViolation(r.plate, outcome)
  {
    var plate := Normalize(raw);
    if !IsValidPlate(plate) then InvalidPlate
    else Answered(plate, CheckViolation(plate, outcome))
  }
}
