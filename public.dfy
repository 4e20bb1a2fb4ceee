/** routes/public.js: the public complaint form, its cascading location lists,
    the tracking page, and the upload filter. */
module PublicRoutes {
  import opened Common
  import opened Store

  predicate IsHexDigit(c: char) {
    '0' <= c <= '9' || 'a' <= c <= 'f'
  }

  /** The text of a version-4 UUID as the uuid package writes it:
      8-4-4-4-12 lower-case hex digits, version digit 4, variant digit 8, 9, a or b. */
  predicate IsUuidV4(u: string) {
    && |u| == 36
    && (forall i :: 0 <= i < 36 ==>
          if i == 8 || i == 13 || i == 18 || i == 23 then u[i] == '-' else IsHexDigit(u[i]))
    && u[14] == '4'
    && u[19] in "89ab"
  }

  /** `s.split('-')[0]`: the longest prefix of s without a hyphen. */
  function BeforeFirstHyphen(s: string): (r: string)
    ensures r <= s && '-' !in r
    ensures r == s || s[|r|] == '-'
  {
    if s == [] || s[0] == '-' then []
    else [s[0]] + BeforeFirstHyphen(s[1..])
  }

  /** `uuidv4().split('-')[0]`: the first hyphen-separated group of the UUID. */
  function TrackingId(uuid: string): (r: string)
    ensures r <= uuid && '-' !in r
    ensures r == uuid || uuid[|r|] == '-'
  {
    BeforeFirstHyphen(uuid)
  }

  /** A tracking id is the first group of its UUID: eight hex digits. */
  lemma TrackingIdOfUuid(uuid: string)
    requires IsUuidV4(uuid)
    ensures TrackingId(uuid) == uuid[..8]
    ensures |TrackingId(uuid)| == 8 && forall c :: c in TrackingId(uuid) ==> IsHexDigit(c)
  {
    var r := TrackingId(uuid);
    assert uuid[8] == '-';
    assert forall i :: 0 <= i < 8 ==> uuid[i] != '-';
    assert r == uuid[..8];
    forall c | c in r ensures IsHexDigit(c) {
      var i :| 0 <= i < 8 && r[i] == c;
      assert uuid[i] == c;
    }
  }

  /** The multer fileFilter: images of any kind and PDF documents. */
  function AcceptsUpload(mimetype: string): (ok: bool)
    ensures ok <==> (|mimetype| >= 6 && mimetype[..6] == "image/") || mimetype == "application/pdf"
  {
    "image/" <= mimetype || mimetype == "application/pdf"
  }

  lemma UploadFilterExamples()
    ensures AcceptsUpload("image/png") && AcceptsUpload("image/") && AcceptsUpload("application/pdf")
    ensures !AcceptsUpload("application/pdf+zip") && !AcceptsUpload("text/html")
    ensures !AcceptsUpload("image") && !AcceptsUpload("")
  {
    assert "image/png"[..6] == "image/";
    assert "application/pdf+zip" != "application/pdf";
    assert "application/pdf+zip"[..6] != "image/" by {
      assert "application/pdf+zip"[0] == 'a';
    }
    assert "text/html"[..6] != "image/" by {
      assert "text/html"[0] == 't';
    }
  }

  /** The fields of the public complaint form. Free-text fields are stored as
      sent; the reference fields and the age are `|| null`-normalised. */
  datatype ComplaintForm = ComplaintForm(
    name: Option<string>, genderId: Field<int>, age: Field<int>, phone: Option<string>,
    email: Option<string>, governorateId: Field<int>, districtId: Field<int>,
    subDistrictId: Field<int>, communityId: Field<int>,
    villageCampFacility: Option<string>, activity: Option<string>,
    complaint: Option<string>, channelId: Field<int>, projectId: Field<int>)

  /** The complaint row the INSERT writes: empty or missing gender, age,
      location, channel and project become NULL; everything else as sent. */
  function NewComplaint(id: int, trackingId: string, form: ComplaintForm, now: int): (c: Complaint)
    ensures c.id == id && c.trackingId == trackingId && c.createdAt == now
    ensures c.genderId.None? <==> !form.genderId.Given?
    ensures form.genderId.Given? ==> c.genderId == Some(form.genderId.value)
    ensures c.age.None? <==> !form.age.Given?
    ensures form.age.Given? ==> c.age == Some(form.age.value)
    ensures c.governorateId.None? <==> !form.governorateId.Given?
    ensures form.governorateId.Given? ==> c.governorateId == Some(form.governorateId.value)
    ensures c.districtId.None? <==> !form.districtId.Given?
    ensures form.districtId.Given? ==> c.districtId == Some(form.districtId.value)
    ensures c.subDistrictId.None? <==> !form.subDistrictId.Given?
    ensures form.subDistrictId.Given? ==> c.subDistrictId == Some(form.subDistrictId.value)
    ensures c.communityId.None? <==> !form.communityId.Given?
    ensures form.communityId.Given? ==> c.communityId == Some(form.communityId.value)
    ensures c.channelId.None? <==> !form.channelId.Given?
    ensures form.channelId.Given? ==> c.channelId == Some(form.channelId.value)
    ensures c.projectId.None? <==> !form.projectId.Given?
    ensures form.projectId.Given? ==> c.projectId == Some(form.projectId.value)
    ensures c.name == form.name && c.phone == form.phone && c.email == form.email
    ensures c.villageCampFacility == form.villageCampFacility && c.activity == form.activity
    ensures c.text == form.complaint
  {
    Complaint(id, trackingId, form.name, OrNull(form.genderId), OrNull(form.age),
              form.phone, form.email, OrNull(form.governorateId), OrNull(form.districtId),
              OrNull(form.subDistrictId), OrNull(form.communityId),
              form.villageCampFacility, form.activity, form.complaint,
              OrNull(form.channelId), OrNull(form.projectId), now)
  }

  datatype SubmitOutcome =
    | Submitted(trackingId: string)  // the thank-you page shows the tracking id
    | SubmitFailed(message: string)  // 500, after ROLLBACK

  /** POST /submit. `uuid` is the value uuidv4() returned, `upload` the stored
      file name multer reported (if any), `now` the insertion time;
      `complaintFails` and `attachmentFails` stand for the database refusing
      either INSERT. Both INSERTs run in one transaction. */
  method Submit(db: Db, form: ComplaintForm, uuid: string, upload: Option<string>, now: int,
                complaintFails: bool, attachmentFails: bool)
    returns (outcome: SubmitOutcome)
    requires db.Valid()
    modifies db`complaints, db`nextComplaintId, db`attachments, db`nextAttachmentId
    ensures db.Valid()
    ensures outcome.Submitted? <==> !complaintFails && !(Truthy(upload) && attachmentFails)
    ensures outcome.Submitted? ==>
      && outcome.trackingId == TrackingId(uuid)
      && db.complaints == old(db.complaints)
           + [NewComplaint(old(db.nextComplaintId), TrackingId(uuid), form, now)]
      && db.nextComplaintId == old(db.nextComplaintId) + 1
      && db.attachments == old(db.attachments)
           + (if Truthy(upload)
              then [Attachment(old(db.nextAttachmentId), old(db.nextComplaintId), upload.value)]
              else [])
      && db.nextAttachmentId == old(db.nextAttachmentId) + (if Truthy(upload) then 1 else 0)
    ensures outcome.SubmitFailed? ==>
      && outcome.message == "Something went wrong."
      && db.complaints == old(db.complaints) && db.nextComplaintId == old(db.nextComplaintId)
      && db.attachments == old(db.attachments) && db.nextAttachmentId == old(db.nextAttachmentId)
  {
    var trackingId := TrackingId(uuid);
    // BEGIN
    var savedComplaints, savedNextComplaintId := db.complaints, db.nextComplaintId;
    if complaintFails {
      return SubmitFailed("Something went wrong.");
    }
    var complaintId := db.nextComplaintId;
    var row := NewComplaint(complaintId, trackingId, form, now);
    SerialAppend(db.complaints, (c: Complaint) => c.id, db.nextComplaintId, row);
    db.complaints := db.complaints + [row];
    db.nextComplaintId := db.nextComplaintId + 1;
    if Truthy(upload) {
      if attachmentFails {
        // ROLLBACK
        db.complaints, db.nextComplaintId := savedComplaints, savedNextComplaintId;
        return SubmitFailed("Something went wrong.");
      }
      var file := Attachment(db.nextAttachmentId, complaintId, upload.value);
      SerialAppend(db.attachments, (a: Attachment) => a.id, db.nextAttachmentId, file);
      db.attachments := db.attachments + [file];
      db.nextAttachmentId := db.nextAttachmentId + 1;
    }
    // COMMIT
    outcome := Submitted(trackingId);
  }

  /** A row of the JSON lists that drive the dependent selects. */
  datatype NamedRow = NamedRow(id: int, name: string)

  /** The places under `parentId`, in table order, each as often as stored. */
  function ChildPlaces(places: seq<Place>, parentId: int): seq<Place> {
    Filter(places, (p: Place) => p.parentId == parentId)
  }

  /** The JSON rows of some places, one per place, in the same order. */
  function RowsOf(places: seq<Place>): (r: seq<NamedRow>)
    ensures |r| == |places|
  {
    if places == [] then [] else [NamedRow(places[0].id, places[0].name)] + RowsOf(places[1..])
  }

  /** `SELECT id, name FROM <table> WHERE <parent>_id = $1` */
  function ChildrenOf(places: seq<Place>, parentId: int): (r: seq<NamedRow>)
    ensures forall row :: row in r <==>
      exists p :: p in places && p.parentId == parentId && row == NamedRow(p.id, p.name)
  {
    if places == [] then []
    else
      var rest := ChildrenOf(places[1..], parentId);
      assert forall p :: p in places <==> p == places[0] || p in places[1..];
      if places[0].parentId == parentId then [NamedRow(places[0].id, places[0].name)] + rest
      else rest
  }

  /** The list is one row per place under `parentId`, in table order, and no
      other row. */
  lemma {:induction false} ChildrenInTableOrder(places: seq<Place>, parentId: int)
    ensures ChildrenOf(places, parentId) == RowsOf(ChildPlaces(places, parentId))
  {
    if places != [] {
      ChildrenInTableOrder(places[1..], parentId);
      var own := ChildPlaces(places, parentId);
      assert own == if places[0].parentId == parentId
                    then [places[0]] + ChildPlaces(places[1..], parentId)
                    else ChildPlaces(places[1..], parentId);
      if places[0].parentId == parentId {
        assert own[1..] == ChildPlaces(places[1..], parentId);
      }
    }
  }

  /** GET /api/districts/:governorateId */
  function Districts(db: Db, governorateId: int): (r: seq<NamedRow>)
    reads db
    ensures forall row :: row in r <==>
      exists p :: p in db.districts && p.parentId == governorateId && row == NamedRow(p.id, p.name)
    ensures |r| == |ChildPlaces(db.districts, governorateId)|
  {
    ChildrenInTableOrder(db.districts, governorateId);
    ChildrenOf(db.districts, governorateId)
  }

  /** GET /api/sub-districts/:districtId */
  function SubDistricts(db: Db, districtId: int): (r: seq<NamedRow>)
    reads db
    ensures forall row :: row in r <==>
      exists p :: p in db.subDistricts && p.parentId == districtId && row == NamedRow(p.id, p.name)
    ensures |r| == |ChildPlaces(db.subDistricts, districtId)|
  {
    ChildrenInTableOrder(db.subDistricts, districtId);
    ChildrenOf(db.subDistricts, districtId)
  }

  /** GET /api/communities/:subDistrictId */
  function Communities(db: Db, subDistrictId: int): (r: seq<NamedRow>)
    reads db
    ensures forall row :: row in r <==>
      exists p :: p in db.communities && p.parentId == subDistrictId && row == NamedRow(p.id, p.name)
    ensures |r| == |ChildPlaces(db.communities, subDistrictId)|
  {
    ChildrenInTableOrder(db.communities, subDistrictId);
    ChildrenOf(db.communities, subDistrictId)
  }

  /** What the public tracking page may show. It has no field for the
      complaint's internal id or for any other complaint. */
  datatype TrackView = TrackView(
    trackingId: string, name: Option<string>, phone: Option<string>, createdAt: int,
    status: Option<string>, followUp: Option<string>, sensitive: Option<bool>,
    assignedTo: Option<string>, responseText: Option<string>, responseDate: Option<int>)

  datatype TrackResult =
    | TrackError(error: string)
    | Tracked(view: TrackView)

  function ByTrackingId(complaints: seq<Complaint>, trackingId: string): (r: Option<Complaint>)
    ensures r.None? <==> forall c :: c in complaints ==> c.trackingId != trackingId
    ensures r.Some? ==> r.value in complaints && r.value.trackingId == trackingId
  {
    First(complaints, (c: Complaint) => c.trackingId == trackingId)
  }

  /** POST /track: the first row of `complaints LEFT JOIN assignments LEFT JOIN
      users LEFT JOIN responses WHERE c.tracking_id = $1`. */
  function Track(db: Db, trackingId: string): (r: TrackResult)
    reads db
    ensures r.TrackError? <==> forall c :: c in db.complaints ==> c.trackingId != trackingId
    ensures r.TrackError? ==> r.error == "No complaint found with this Tracking ID."
    ensures r.Tracked? ==>
      var c := ByTrackingId(db.complaints, trackingId).value;
      && r.view.trackingId == trackingId && c in db.complaints
      && r.view.name == c.name && r.view.phone == c.phone && r.view.createdAt == c.createdAt
      && (r.view.status.Some? <==> exists a :: a in db.assignments && a.complaintId == c.id)
      && (r.view.status.Some? ==>
            exists a :: a in db.assignments && a.complaintId == c.id
                        && r.view.status == Some(a.status) && r.view.followUp == Some(a.followUp)
                        && r.view.sensitive == Some(a.sensitive)
                        && (r.view.assignedTo.Some? <==> exists u :: u in db.users && u.id == a.userId)
                        && (r.view.assignedTo.Some? ==>
                              exists u :: u in db.users && u.id == a.userId
                                          && r.view.assignedTo == Some(u.username)))
      && (r.view.status.None? ==> r.view.assignedTo.None?)
      && (r.view.responseText.Some? <==> exists x :: x in db.responses && x.complaintId == c.id)
      && (r.view.responseText.Some? ==>
            exists x :: x in db.responses && x.complaintId == c.id
                        && r.view.responseText == Some(x.responseText)
                        && r.view.responseDate == Some(x.createdAt))
  {
    var found := ByTrackingId(db.complaints, trackingId);
    if found.None? then TrackError("No complaint found with this Tracking ID.")
    else
      var c := found.value;
      var a := First(db.assignments, (a: Assignment) => a.complaintId == c.id);
      var u := if a.None? then None
               else First(db.users, (u: User) => u.id == a.value.userId);
      var x := First(db.responses, (x: Response) => x.complaintId == c.id);
      Tracked(TrackView(
        c.trackingId, c.name, c.phone, c.createdAt,
        if a.Some? then Some(a.value.status) else None,
        if a.Some? then Some(a.value.followUp) else None,
        if a.Some? then Some(a.value.sensitive) else None,
        if u.Some? then Some(u.value.username) else None,
        if x.Some? then Some(x.value.responseText) else None,
        if x.Some? then Some(x.value.createdAt) else None))
  }
}
