/**
 * The server actions of the web client that turn a submitted form into an
 * API request body. A form is its list of name/value pairs (file fields are
 * not modelled); a body is a record whose every field is left out
 * (`undefined`, which `JSON.stringify` drops), cleared (`null`) or given.
 * Date parsing and number parsing are parameters: `None` for an invalid
 * date or `NaN`.
 */
module FormActions {
  import opened Wrappers
  import JsString
  import Seqs
  import AuditLogs
  import UrlSearchParams

  type FormData = seq<(string, string)>

  /** One field of a request body. */
  datatype Field<T> = Omitted | Cleared | Given(value: T)

  /** `formData.get(name)`: the first value under the name, `None` for `null`. */
  function Get(form: FormData, name: string): Option<string>
  {
    UrlSearchParams.Get(form, name)
  }

  /** `formData.has(name)`. */
  predicate Has(form: FormData, name: string)
  {
    Get(form, name).Some?
  }

  /** `formData.getAll(name)`: every value under the name, in order. */
  function GetAll(form: FormData, name: string): (r: seq<string>)
    ensures |r| <= |form|
  {
    if form == [] then []
    else GetAll(form[..|form| - 1], name) + if form[|form| - 1].0 == name then [form[|form| - 1].1] else []
  }

  /** `String(formData.get(name))`: a missing field reads as the text `"null"`. */
  function IdField(form: FormData, name: string): string
  {
    Get(form, name).OrElse("null")
  }

  function NonEmpty(): string -> bool
  {
    (s: string) => s != ""
  }

  /** `.map(String).filter(Boolean)` over `getAll(name)`. */
  function SelectedIds(form: FormData, name: string): (r: seq<string>)
    ensures forall k :: 0 <= k < |r| ==> r[k] != "" && r[k] in GetAll(form, name)
  {
    Seqs.Filter(GetAll(form, name), NonEmpty())
  }

  /** `toIsoString`: nothing for a missing or empty input or an invalid date, the ISO text otherwise. */
  function ToIsoString(value: Option<string>, parseIso: string -> Option<string>): (r: Option<string>)
    ensures !AuditLogs.Truthy(value) ==> r.None?
    ensures AuditLogs.Truthy(value) ==> r == parseIso(value.value)
  {
    if !AuditLogs.Truthy(value) then None else parseIso(value.value)
  }

  /** `parseTags`: nothing for a missing or empty field; otherwise the trimmed, non-empty comma-separated parts. */
  function ParseTags(value: Option<string>): Option<seq<string>>
  {
    if !AuditLogs.Truthy(value) then None
    else Some(Seqs.Filter(JsString.TrimEach(JsString.Split(value.value, ',')), NonEmpty()))
  }

  /** `parseTags` gives nothing exactly for a missing or empty field. */
  lemma ParseTagsAbsent(value: Option<string>)
    ensures ParseTags(value).None? <==> !AuditLogs.Truthy(value)
  {
  }

  /** `tag` is the trimmed form of one of `parts`. */
  predicate TrimmedFormOfPart(tag: string, parts: seq<string>)
  {
    exists m :: 0 <= m < |parts| && tag == JsString.Trim(parts[m])
  }

  /** An item of `JsString.TrimEach(parts)` is the trimmed form of one part, so it is trimmed and has no character the parts lack. */
  lemma TrimmedPart(parts: seq<string>, tag: string)
    requires tag in JsString.TrimEach(parts)
    requires forall m :: 0 <= m < |parts| ==> ',' !in parts[m]
    ensures JsString.IsTrimmed(tag) && ',' !in tag
    ensures TrimmedFormOfPart(tag, parts)
  {
    var trimmed := JsString.TrimEach(parts);
    var m :| 0 <= m < |trimmed| && trimmed[m] == tag;
    TrimInside(parts[m]);
  }

  /** A tag the filter keeps is a non-empty item of `JsString.TrimEach(parts)`. */
  lemma KeptTag(parts: seq<string>, tag: string)
    requires tag in Seqs.Filter(JsString.TrimEach(parts), NonEmpty())
    ensures tag != "" && tag in JsString.TrimEach(parts)
  {
    Seqs.FilterMembers(JsString.TrimEach(parts), NonEmpty(), tag);
  }

  /** One tag the filter keeps: non-empty, trimmed, free of commas, the trimmed form of one part. */
  lemma KeptTagFacts(parts: seq<string>, tag: string)
    requires tag in Seqs.Filter(JsString.TrimEach(parts), NonEmpty())
    requires forall m :: 0 <= m < |parts| ==> ',' !in parts[m]
    ensures tag != "" && JsString.IsTrimmed(tag) && ',' !in tag && TrimmedFormOfPart(tag, parts)
  {
    KeptTag(parts, tag);
    TrimmedPart(parts, tag);
  }

  /** Every tag is non-empty, trimmed, free of commas, and the trimmed form of one comma-separated part. */
  lemma ParseTagsAreParts(text: string)
    requires text != ""
    ensures var tags := ParseTags(Some(text)).value;
            var parts := JsString.Split(text, ',');
            forall k :: 0 <= k < |tags| ==>
              tags[k] != "" && JsString.IsTrimmed(tags[k]) && ',' !in tags[k] && TrimmedFormOfPart(tags[k], parts)
  {
    var parts := JsString.Split(text, ',');
    KeptTagsFacts(parts, ParseTags(Some(text)).value);
  }

  /** Every tag the filter keeps from comma-free parts is non-empty, trimmed, comma-free and the trimmed form of a part. */
  lemma KeptTagsFacts(parts: seq<string>, tags: seq<string>)
    requires tags == Seqs.Filter(JsString.TrimEach(parts), NonEmpty())
    requires forall m :: 0 <= m < |parts| ==> ',' !in parts[m]
    ensures forall k :: 0 <= k < |tags| ==>
              tags[k] != "" && JsString.IsTrimmed(tags[k]) && ',' !in tags[k] && TrimmedFormOfPart(tags[k], parts)
  {
    forall k | 0 <= k < |tags|
      ensures tags[k] != "" && JsString.IsTrimmed(tags[k]) && ',' !in tags[k] && TrimmedFormOfPart(tags[k], parts)
    {
      KeptTagFacts(parts, tags[k]);
    }
  }

  /** Every part that is not blank is kept, in the order of the field. */
  lemma ParseTagsKeepsParts(text: string)
    requires text != ""
    ensures var tags := ParseTags(Some(text)).value;
            var parts := JsString.Split(text, ',');
            && (forall m :: 0 <= m < |parts| && JsString.Trim(parts[m]) != "" ==> JsString.Trim(parts[m]) in tags)
            && Seqs.IsSubsequence(tags, JsString.TrimEach(parts))
  {
    var parts := JsString.Split(text, ',');
    var trimmed := JsString.TrimEach(parts);
    assert ParseTags(Some(text)).value == Seqs.Filter(trimmed, NonEmpty());
    Seqs.FilterIsSubsequence(trimmed, NonEmpty());
    forall m | 0 <= m < |parts| && JsString.Trim(parts[m]) != ""
      ensures JsString.Trim(parts[m]) in Seqs.Filter(trimmed, NonEmpty())
    {
        assert NonEmpty()(trimmed[m]);
    }
  }

  /** Trimming keeps no character that was not in the text. */
  lemma TrimInside(s: string)
    ensures forall c :: c in JsString.Trim(s) ==> c in s
  {
    JsString.TrimStartThenEnd(s);
    WindowInside(s, |s| - |JsString.TrimStart(s)|, JsString.TrimEnd(JsString.TrimStart(s)));
  }

  /** A window of `s` has no character that `s` lacks. */
  lemma WindowInside(s: string, i: int, r: string)
    requires 0 <= i <= |s| - |r| && s[i..i + |r|] == r
    ensures forall c :: c in r ==> c in s
  {
    forall c | c in r ensures c in s {
      var k :| 0 <= k < |r| && r[k] == c;
      assert s[i + k] == c;
    }
  }

  /** The body of `updateAnnouncementAction`. */
  datatype AnnouncementPatch = AnnouncementPatch(
    title: Field<string>, body: Field<string>, audience: Field<string>,
    publishAt: Field<string>, expireAt: Field<string>, groupIds: Field<seq<string>>)

  const EmptyAnnouncementPatch := AnnouncementPatch(Omitted, Omitted, Omitted, Omitted, Omitted, Omitted)

  /** `payload[key] = text` for the two text entries of the announcement form. */
  function WithText(payload: AnnouncementPatch, key: string, text: string): AnnouncementPatch
  {
    if key == "title" then payload.(title := Given(text)) else payload.(body := Given(text))
  }

  /** The body of the announcement update, and the id it is sent for. */
  method UpdateAnnouncementPayload(form: FormData, parseIso: string -> Option<string>)
    returns (announcementId: string, payload: AnnouncementPatch)
    ensures announcementId == IdField(form, "announcementId")
    ensures payload.title == if AuditLogs.Truthy(Get(form, "title")) then Given(Get(form, "title").value) else Omitted
    ensures payload.body == if AuditLogs.Truthy(Get(form, "body")) then Given(Get(form, "body").value) else Omitted
    ensures payload.audience == if AuditLogs.Truthy(Get(form, "audience")) then Given(Get(form, "audience").value) else Omitted
    ensures var iso := ToIsoString(Get(form, "publishAt"), parseIso);
            payload.publishAt == if iso.Some? then Given(iso.value) else Omitted
    ensures !Has(form, "expireAt") ==> payload.expireAt == Omitted
    ensures Get(form, "expireAt") == Some("") ==> payload.expireAt == Cleared
    ensures AuditLogs.Truthy(Get(form, "expireAt")) ==>
              payload.expireAt == if parseIso(Get(form, "expireAt").value).Some? then Given(parseIso(Get(form, "expireAt").value).value) else Omitted
    ensures Get(form, "audience") == Some("custom") ==> payload.groupIds == Given(SelectedIds(form, "groupIds"))
    ensures AuditLogs.Truthy(Get(form, "audience")) && Get(form, "audience") != Some("custom") ==> payload.groupIds == Given([])
    ensures !AuditLogs.Truthy(Get(form, "audience")) && Has(form, "groupIdsMarker") ==> payload.groupIds == Given(SelectedIds(form, "groupIds"))
    ensures !AuditLogs.Truthy(Get(form, "audience")) && !Has(form, "groupIdsMarker") ==> payload.groupIds == Omitted
  {
    announcementId := IdField(form, "announcementId");
    payload := AnnouncementTexts(form);

    var audienceRaw := Get(form, "audience");
    var audience := if AuditLogs.Truthy(audienceRaw) then Some(audienceRaw.value) else None;
    if audience.Some? {
      payload := payload.(audience := Given(audience.value));
    }

    var publishAtRaw := Get(form, "publishAt");
    if AuditLogs.Truthy(publishAtRaw) {
      var publishIso := ToIsoString(publishAtRaw, parseIso);
      if publishIso.Some? {
        payload := payload.(publishAt := Given(publishIso.value));
      }
    }

    var expireAt := AnnouncementExpiry(form, parseIso);
    payload := payload.(expireAt := expireAt);

    var groupIds := AnnouncementGroups(form, audience);
    payload := payload.(groupIds := groupIds);
  }

  /** The loop over the title and body entries: each is sent when it is a non-empty text. */
  method AnnouncementTexts(form: FormData) returns (payload: AnnouncementPatch)
    ensures payload.title == if AuditLogs.Truthy(Get(form, "title")) then Given(Get(form, "title").value) else Omitted
    ensures payload.body == if AuditLogs.Truthy(Get(form, "body")) then Given(Get(form, "body").value) else Omitted
    ensures payload.audience == Omitted && payload.publishAt == Omitted
    ensures payload.expireAt == Omitted && payload.groupIds == Omitted
  {
    payload := EmptyAnnouncementPatch;
    var entries := [("title", Get(form, "title")), ("body", Get(form, "body"))];
    var i := 0;
    while i < |entries|
      invariant 0 <= i <= |entries|
      invariant payload.audience == Omitted && payload.publishAt == Omitted
      invariant payload.expireAt == Omitted && payload.groupIds == Omitted
      invariant payload.title == if i > 0 && AuditLogs.Truthy(entries[0].1) then Given(entries[0].1.value) else Omitted
      invariant payload.body == if i > 1 && AuditLogs.Truthy(entries[1].1) then Given(entries[1].1.value) else Omitted
    {
      var (key, value) := entries[i];
      if value.Some? {
        var text := value.value;
        if |text| > 0 {
          payload := WithText(payload, key, text);
        }
      }
      i := i + 1;
    }
  }

  /** The expiry entry: omitted when absent, cleared when emptied, the parsed date when it parses. */
  method AnnouncementExpiry(form: FormData, parseIso: string -> Option<string>) returns (expireAt: Field<string>)
    ensures !Has(form, "expireAt") ==> expireAt == Omitted
    ensures Get(form, "expireAt") == Some("") ==> expireAt == Cleared
    ensures AuditLogs.Truthy(Get(form, "expireAt")) ==>
              expireAt == if parseIso(Get(form, "expireAt").value).Some? then Given(parseIso(Get(form, "expireAt").value).value) else Omitted
  {
    expireAt := Omitted;
    if Has(form, "expireAt") {
      var expireText := Get(form, "expireAt").value;
      if expireText == "" {
        expireAt := Cleared;
      } else {
        var expireIso := ToIsoString(Some(expireText), parseIso);
        if expireIso.Some? {
          expireAt := Given(expireIso.value);
        }
      }
    }
  }

  /** The group entry: the selection for a custom audience, none for another audience, the selection when only the groups were touched. */
  method AnnouncementGroups(form: FormData, audience: Option<string>) returns (groupIds: Field<seq<string>>)
    ensures audience == Some("custom") ==> groupIds == Given(SelectedIds(form, "groupIds"))
    ensures audience.Some? && audience != Some("custom") ==> groupIds == Given([])
    ensures audience.None? && Has(form, "groupIdsMarker") ==> groupIds == Given(SelectedIds(form, "groupIds"))
    ensures audience.None? && !Has(form, "groupIdsMarker") ==> groupIds == Omitted
  {
    groupIds := Omitted;
    var selected := SelectedIds(form, "groupIds");
    var groupFieldTouched := Has(form, "groupIdsMarker");
    if audience == Some("custom") {
      groupIds := Given(selected);
    } else if audience.Some? {
      groupIds := Given([]);
    } else if groupFieldTouched {
      groupIds := Given(selected);
    }
  }

  /** The body of `updateContributionAction`. */
  datatype ContributionPatch = ContributionPatch(
    memberId: Field<string>, amount: Field<int>, date: Field<string>,
    fundId: Field<string>, paymentMethod: Field<string>, note: Field<string>)

  /** The body of the contribution update, and the id it is sent for. */
  method UpdateContributionPayload(form: FormData, parseIso: string -> Option<string>, toNumber: string -> Option<int>)
    returns (contributionId: string, payload: ContributionPatch)
    ensures contributionId == IdField(form, "contributionId")
    ensures payload.memberId == if AuditLogs.Truthy(Get(form, "memberId")) then Given(Get(form, "memberId").value) else Omitted
    ensures payload.amount == if AuditLogs.Truthy(Get(form, "amount")) && toNumber(Get(form, "amount").value).Some?
                              then Given(toNumber(Get(form, "amount").value).value) else Omitted
    ensures var iso := ToIsoString(Get(form, "date"), parseIso);
            payload.date == if iso.Some? then Given(iso.value) else Omitted
    ensures payload.fundId == if Has(form, "fundId") then Given(Get(form, "fundId").value) else Omitted
    ensures payload.paymentMethod == if AuditLogs.Truthy(Get(form, "method")) then Given(Get(form, "method").value) else Omitted
    ensures payload.note == if Has(form, "note") then Given(Get(form, "note").value) else Omitted
    ensures payload.memberId != Cleared && payload.amount != Cleared && payload.date != Cleared
    ensures payload.fundId != Cleared && payload.paymentMethod != Cleared && payload.note != Cleared
  {
    contributionId := IdField(form, "contributionId");
    payload := ContributionPatch(Omitted, Omitted, Omitted, Omitted, Omitted, Omitted);
    var memberId := Get(form, "memberId");
    if AuditLogs.Truthy(memberId) {
      var value := memberId.value;
      if |value| > 0 {
        payload := payload.(memberId := Given(value));
      }
    }
    var amountRaw := Get(form, "amount");
    if AuditLogs.Truthy(amountRaw) {
      var amount := toNumber(amountRaw.value);
      if amount.Some? {
        payload := payload.(amount := Given(amount.value));
      }
    }
    var dateRaw := Get(form, "date");
    if AuditLogs.Truthy(dateRaw) {
      var iso := ToIsoString(dateRaw, parseIso);
      if iso.Some? {
        payload := payload.(date := Given(iso.value));
      }
    }
    var fundId := Get(form, "fundId");
    if fundId.Some? {
      payload := payload.(fundId := Given(fundId.value));
    }
    var paymentMethod := Get(form, "method");
    if AuditLogs.Truthy(paymentMethod) {
      payload := payload.(paymentMethod := Given(paymentMethod.value));
    }
    var note := Get(form, "note");
    if note.Some? {
      payload := payload.(note := Given(note.value));
    }
  }

  /** An emptied fund or note field is still sent, as an empty text; an emptied amount is not sent. */
  lemma EmptiedContributionFields(form: FormData, parseIso: string -> Option<string>, toNumber: string -> Option<int>)
    requires Get(form, "fundId") == Some("") && Get(form, "note") == Some("") && Get(form, "amount") == Some("")
    ensures var p := ContributionPatchOf(form, parseIso, toNumber);
            p.fundId == Given("") && p.note == Given("") && p.amount == Omitted
  {
  }

  /** The contribution body as a value, for lemmas that relate several forms. */
  function ContributionPatchOf(form: FormData, parseIso: string -> Option<string>, toNumber: string -> Option<int>): ContributionPatch
  {
    var amountRaw := Get(form, "amount");
    var iso := ToIsoString(Get(form, "date"), parseIso);
    ContributionPatch(
      if AuditLogs.Truthy(Get(form, "memberId")) then Given(Get(form, "memberId").value) else Omitted,
      if AuditLogs.Truthy(amountRaw) && toNumber(amountRaw.value).Some? then Given(toNumber(amountRaw.value).value) else Omitted,
      if iso.Some? then Given(iso.value) else Omitted,
      if Has(form, "fundId") then Given(Get(form, "fundId").value) else Omitted,
      if AuditLogs.Truthy(Get(form, "method")) then Given(Get(form, "method").value) else Omitted,
      if Has(form, "note") then Given(Get(form, "note").value) else Omitted)
  }

  /** The body of `updateEventAction`. */
  datatype EventPatch = EventPatch(
    title: Field<string>, description: Field<string>, startAt: Field<string>, endAt: Field<string>,
    location: Field<string>, visibility: Field<string>, groupId: Field<string>, tags: Field<seq<string>>)

  /** `formData.get(name) ? String(formData.get(name)) : undefined`. */
  function TextField(form: FormData, name: string): (f: Field<string>)
    ensures f.Given? <==> AuditLogs.Truthy(Get(form, name))
    ensures f != Cleared
  {
    var v := Get(form, name);
    if AuditLogs.Truthy(v) then Given(v.value) else Omitted
  }

  function Iso(value: Option<string>, parseIso: string -> Option<string>): Field<string>
  {
    var iso := ToIsoString(value, parseIso);
    if iso.Some? then Given(iso.value) else Omitted
  }

  /** `updateEventAction`'s `groupId`: an empty field clears the group, a missing one leaves it out. */
  function EventGroupId(form: FormData): (r: Field<string>)
    ensures Get(form, "groupId") == Some("") <==> r == Cleared
    ensures Get(form, "groupId").None? <==> r == Omitted
    ensures AuditLogs.Truthy(Get(form, "groupId")) <==> r.Given?
    ensures r.Given? ==> r.value == Get(form, "groupId").value
  {
    var rawGroupId := Get(form, "groupId");
    if rawGroupId == Some("") then Cleared
    else if AuditLogs.Truthy(rawGroupId) then Given(rawGroupId.value)
    else Omitted
  }

  /** The body of the event update. */
  function UpdateEventPayload(form: FormData, parseIso: string -> Option<string>): (p: EventPatch)
    ensures p.groupId == EventGroupId(form)
    ensures p.tags.Given? <==> AuditLogs.Truthy(Get(form, "tags"))
    ensures p.tags.Given? ==> p.tags.value == ParseTags(Get(form, "tags")).value
    ensures p.title.Given? <==> AuditLogs.Truthy(Get(form, "title"))
    ensures p.startAt.Given? <==> ToIsoString(Get(form, "startAt"), parseIso).Some?
    ensures p.endAt.Given? <==> ToIsoString(Get(form, "endAt"), parseIso).Some?
    ensures p.title != Cleared && p.description != Cleared && p.startAt != Cleared && p.endAt != Cleared
    ensures p.location != Cleared && p.visibility != Cleared && p.tags != Cleared
  {
    var tags := ParseTags(Get(form, "tags"));
    EventPatch(
      TextField(form, "title"), TextField(form, "description"),
      Iso(Get(form, "startAt"), parseIso), Iso(Get(form, "endAt"), parseIso),
      TextField(form, "location"), TextField(form, "visibility"),
      EventGroupId(form),
      if tags.Some? then Given(tags.value) else Omitted)
  }

  /** The body of `deleteRoleAction`: the replacement role only when one is chosen. */
  function DeleteRoleBody(form: FormData): (reassignRoleId: Field<string>)
    ensures reassignRoleId.Given? <==> AuditLogs.Truthy(Get(form, "reassignRoleId"))
    ensures reassignRoleId.Given? ==> reassignRoleId.value == Get(form, "reassignRoleId").value != ""
    ensures Get(form, "reassignRoleId") == Some("") ==> reassignRoleId == Omitted
    ensures reassignRoleId != Cleared
  {
    var raw := Get(form, "reassignRoleId");
    var chosen := if AuditLogs.Truthy(raw) then Some(raw.value) else None;
    if chosen.Some? && |chosen.value| > 0 then Given(chosen.value) else Omitted
  }
}
