/** The rally attendance form: the member's details and photo, the preview
    card it opens once the required details are filled in, the file name of
    the downloaded card and the card's layout on its canvas. */
module Attendance {

  datatype FormData = FormData(
    name: string,
    email: string,
    phone: string,
    district: string,
    photoUrl: string,
    memberId: string)

  /** The form's text inputs, by their `name` attribute. */
  datatype Field = Name | MemberId | Email | Phone | District

  const EmptyForm: FormData := FormData("", "", "", "", "", "")

  function FieldValue(f: FormData, field: Field): string {
    match field
    case Name => f.name
    case MemberId => f.memberId
    case Email => f.email
    case Phone => f.phone
    case District => f.district
  }

  /** `{...prev, [name]: value}`. */
  function WithField(f: FormData, field: Field, value: string): FormData {
    match field
    case Name => f.(name := value)
    case MemberId => f.(memberId := value)
    case Email => f.(email := value)
    case Phone => f.(phone := value)
    case District => f.(district := value)
  }

  /** Editing sets the named input and leaves every other input and the
      photo as they were. */
  lemma {:induction false} WithFieldSpec(f: FormData, field: Field, value: string)
    ensures FieldValue(WithField(f, field, value), field) == value
    ensures forall other: Field :: other != field ==> FieldValue(WithField(f, field, value), other) == FieldValue(f, other)
    ensures WithField(f, field, value).photoUrl == f.photoUrl
  {
  }

  /** The details a card needs: name, e-mail, phone and district are
      non-empty; the member id and the photo are optional. */
  predicate Complete(f: FormData) {
    f.name != [] && f.email != [] && f.phone != [] && f.district != []
  }

  /** The name of the downloaded card: district and name when a photo was
      drawn, otherwise a fixed prefix and the name. */
  function CardFileName(f: FormData): string {
    if f.photoUrl != [] then f.district + "-" + f.name + ".png" else "Rally-Card-" + f.name + ".png"
  }

  /** Every card file is a PNG whose name holds the member's name just
      before the extension; with a photo it starts with the district and a
      dash, without one with `Rally-Card-`. */
  lemma {:induction false} CardFileNameSpec(f: FormData)
    ensures var n := CardFileName(f);
      && |n| >= |f.name| + 5
      && n[|n| - 4..] == ".png"
      && n[|n| - 4 - |f.name|..|n| - 4] == f.name
      && (f.photoUrl != [] ==> n[..|f.district| + 1] == f.district + "-")
      && (f.photoUrl == [] ==> n[..11] == "Rally-Card-")
  {
    var n := CardFileName(f);
    if f.photoUrl != [] {
      assert n == (f.district + "-") + f.name + ".png";
    } else {
      assert n == "Rally-Card-" + f.name + ".png";
    }
  }

  class AttendancePage {
    var form: FormData
    var showPreview: bool

    constructor ()
      ensures form == EmptyForm && !showPreview
    {
      form := EmptyForm;
      showPreview := false;
    }

    /** `handleChange`: only the named input changes. */
    method HandleChange(field: Field, value: string)
      modifies this
      ensures form == WithField(old(form), field, value) && showPreview == old(showPreview)
    {
      form := WithField(form, field, value);
    }

    /** The photo reader's `onload`: only the photo changes, to the image's
        data URL. */
    method HandlePhotoLoaded(dataUrl: string)
      modifies this
      ensures form == old(form).(photoUrl := dataUrl) && showPreview == old(showPreview)
    {
      form := form.(photoUrl := dataUrl);
    }

    /** `handleSubmit`: open the preview when the details are complete,
        otherwise change nothing. */
    method HandleSubmit()
      modifies this
      ensures form == old(form)
      ensures showPreview == (old(showPreview) || Complete(form))
    {
      if form.name != [] && form.email != [] && form.phone != [] && form.district != [] {
        showPreview := true;
      }
    }

    /** The preview's close button. */
    method ClosePreview()
      modifies this
      ensures form == old(form) && !showPreview
    {
      showPreview := false;
    }

    /** The preview card is rendered only while the flag is set and the
        details are still complete. */
    predicate PreviewVisible()
      reads this
    {
      showPreview && Complete(form)
    }
  }

  /** Clearing any required input makes the details incomplete, so an open
      preview stops being rendered; the member id is not required. */
  lemma {:induction false} PreviewAfterEdit(f: FormData, field: Field)
    ensures field != MemberId ==> !Complete(WithField(f, field, ""))
    ensures field == MemberId ==> (Complete(WithField(f, field, "")) <==> Complete(f))
  {
  }

  // ---------------------------------------------------------------------------
  // Card layout

  datatype Rect = Rect(x: int, y: int, width: int, height: int)
  datatype Point = Point(x: int, y: int)

  const CanvasWidth: int := 480
  const CanvasHeight: int := 550
  const PhotoRect: Rect := Rect(60, 345, 140, 145)
  const NameAnchorWithPhoto: Point := Point(130, 515)
  const DistrictAnchorWithPhoto: Point := Point(120, 540)
  const NameAnchorNoPhoto: Point := Point(200, 400)
  const DistrictAnchorNoPhoto: Point := Point(200, 430)

  predicate RectInCanvas(r: Rect) {
    0 <= r.x && 0 <= r.y && 0 < r.width && 0 < r.height
    && r.x + r.width <= CanvasWidth && r.y + r.height <= CanvasHeight
  }

  predicate PointInCanvas(p: Point) {
    0 <= p.x < CanvasWidth && 0 <= p.y < CanvasHeight
  }

  predicate PointBelow(p: Point, r: Rect) {
    p.y > r.y + r.height
  }

  /** The photo is drawn wholly inside the card, the text anchors lie on the
      card, and with a photo the name and district lines sit below it. */
  lemma {:induction false} CardLayout()
    ensures RectInCanvas(PhotoRect)
    ensures PointInCanvas(NameAnchorWithPhoto) && PointInCanvas(DistrictAnchorWithPhoto)
    ensures PointInCanvas(NameAnchorNoPhoto) && PointInCanvas(DistrictAnchorNoPhoto)
    ensures PointBelow(NameAnchorWithPhoto, PhotoRect) && PointBelow(DistrictAnchorWithPhoto, PhotoRect)
  {
  }
}
