/** The clickable district map: its text labels are matched to districts
    and rewritten in Tamil, the selected district's label is highlighted,
    each matched district's area is shaded by its share of the largest
    registration count, and every area left without a shade is greyed out. */
module InteractiveMap {
  import opened Options
  import opened Text
  import opened RegistrationStats

  // ---------------------------------------------------------------------------
  // Largest count

  /** `Math.max(...registrations)`; `None` for an empty list, where the
      maximum is negative infinity. */
  function MaxRegistrations(ds: seq<District>): (m: Option<nat>)
    ensures m.None? <==> ds == []
  {
    if ds == [] then None
    else
      match MaxRegistrations(ds[1..])
      case None => Some(ds[0].registrations)
      case Some(rest) => Some(if ds[0].registrations >= rest then ds[0].registrations else rest)
  }

  /** The maximum is at least every count and is the count of some district. */
  lemma {:induction false} MaxRegistrationsSpec(ds: seq<District>)
    requires ds != []
    ensures forall i :: 0 <= i < |ds| ==> ds[i].registrations <= MaxRegistrations(ds).value
    ensures exists i :: 0 <= i < |ds| && ds[i].registrations == MaxRegistrations(ds).value
  {
    if |ds| == 1 {
      assert ds[0].registrations == MaxRegistrations(ds).value;
    } else {
      MaxRegistrationsSpec(ds[1..]);
      var k :| 0 <= k < |ds[1..]| && ds[1..][k].registrations == MaxRegistrations(ds[1..]).value;
      assert forall i :: 1 <= i < |ds| ==> ds[i] == ds[1..][i - 1];
      if MaxRegistrations(ds).value != ds[0].registrations {
        assert ds[k + 1].registrations == MaxRegistrations(ds).value;
      } else {
        assert ds[0].registrations == MaxRegistrations(ds).value;
      }
    }
  }

  // ---------------------------------------------------------------------------
  // Label matching

  /** `toLowerCase` on the ASCII letters; every other character is kept. */
  function ToLowerChar(c: char): char {
    if 'A' <= c <= 'Z' then (c as int + 32) as char else c
  }

  function ToLower(s: string): (r: string)
    ensures |r| == |s|
    ensures forall i :: 0 <= i < |s| ==> r[i] == ToLowerChar(s[i])
  {
    if s == [] then [] else [ToLowerChar(s[0])] + ToLower(s[1..])
  }

  /** A district's label text: its English name in any letter case, or its
      Tamil name exactly. */
  predicate LabelNames(d: District, text: string) {
    ToLower(d.name) == ToLower(text) || d.tamil == text
  }

  /** The index of the first district the text names, `|ds|` when none does. */
  function FirstMatch(ds: seq<District>, text: string): (i: nat)
    ensures i <= |ds|
  {
    if ds == [] then 0 else if LabelNames(ds[0], text) then 0 else 1 + FirstMatch(ds[1..], text)
  }

  /** `districts.find(...)` on the trimmed label; a label that is empty after
      trimming is skipped. */
  function MatchLabel(ds: seq<District>, labelText: string): Option<District> {
    var text := Trim(labelText);
    if text == [] then None
    else
      var i := FirstMatch(ds, text);
      if i < |ds| then Some(ds[i]) else None
  }

  lemma {:induction false} FirstMatchSpec(ds: seq<District>, text: string)
    ensures forall j :: 0 <= j < FirstMatch(ds, text) ==> !LabelNames(ds[j], text)
    ensures FirstMatch(ds, text) < |ds| ==> LabelNames(ds[FirstMatch(ds, text)], text)
  {
    if ds != [] && !LabelNames(ds[0], text) {
      FirstMatchSpec(ds[1..], text);
      assert forall j :: 1 <= j < |ds| ==> ds[j] == ds[1..][j - 1];
    }
  }

  /** A label matches the first district in list order that its trimmed text
      names; it matches nothing when its text is blank or names no district. */
  lemma {:induction false} MatchLabelSpec(ds: seq<District>, labelText: string)
    ensures AllWhite(labelText) ==> MatchLabel(ds, labelText) == None
    ensures !AllWhite(labelText) ==>
      && (MatchLabel(ds, labelText).None? <==> forall j :: 0 <= j < |ds| ==> !LabelNames(ds[j], Trim(labelText)))
      && (MatchLabel(ds, labelText).Some? ==>
            exists i :: 0 <= i < |ds| && MatchLabel(ds, labelText) == Some(ds[i]) && LabelNames(ds[i], Trim(labelText))
              && forall j :: 0 <= j < i ==> !LabelNames(ds[j], Trim(labelText)))
  {
    TrimSpec(labelText);
    FirstMatchSpec(ds, Trim(labelText));
  }

  /** Letter case does not matter for the English name: a label in upper or
      lower case names the same districts. */
  lemma {:induction false} ToLowerIdempotent(s: string)
    ensures ToLower(ToLower(s)) == ToLower(s)
  {
    if s != [] {
      ToLowerIdempotent(s[1..]);
    }
  }

  lemma {:induction false} LabelCaseInsensitive(d: District, text: string)
    ensures ToLower(d.name) == ToLower(text) ==> LabelNames(d, ToLower(text))
  {
    ToLowerIdempotent(text);
  }

  // ---------------------------------------------------------------------------
  // Label style

  const SelectedColor: string := "#dc2626"
  const LabelColor: string := "#000000ff"

  datatype Label = Label(text: string, fill: string, fontWeight: string, fontSize: string)

  /** A matched label shows the district's Tamil name, bold at 28px, in red
      when its district is selected and black otherwise; an unmatched label
      is left as it is. */
  function StyleLabel(l: Label, ds: seq<District>, selected: Option<string>): Label {
    match MatchLabel(ds, l.text)
    case None => l
    case Some(d) => Label(d.tamil, if selected == Some(d.name) then SelectedColor else LabelColor, "bold", "28px")
  }

  /** The label loop of the load handler, over the map's labels in place:
      label i ends up as `StyleLabel` of what it was. */
  method StyleLabels(labels: array<Label>, ds: seq<District>, selected: Option<string>)
    modifies labels
    ensures forall i :: 0 <= i < labels.Length ==> labels[i] == StyleLabel(old(labels[i]), ds, selected)
  {
    ghost var original := labels[..];
    for k := 0 to labels.Length
      invariant forall i :: 0 <= i < k ==> labels[i] == StyleLabel(original[i], ds, selected)
      invariant forall i :: k <= i < labels.Length ==> labels[i] == original[i]
    {
      labels[k] := StyleLabel(labels[k], ds, selected);
    }
  }

  /** Only the selected district's label is red. */
  lemma {:induction false} StyleLabelSpec(l: Label, ds: seq<District>, selected: Option<string>)
    ensures var r := StyleLabel(l, ds, selected);
      && (MatchLabel(ds, l.text).None? ==> r == l)
      && (MatchLabel(ds, l.text).Some? ==>
            var d := MatchLabel(ds, l.text).value;
            && r.text == d.tamil && r.fontWeight == "bold" && r.fontSize == "28px"
            && (r.fill == SelectedColor <==> selected == Some(d.name)))
  {
  }

  // ---------------------------------------------------------------------------
  // Area shading

  const HighColor: string := "#fbbf24"
  const MediumColor: string := "#fcd34d"
  const LowColor: string := "#fde68a"
  const BorderColor: string := "#374151"
  const NoDataColor: string := "#e5e7eb"

  /** An area's style; the empty string is a property not yet set. */
  datatype PathStyle = PathStyle(fill: string, fillOpacity: string, stroke: string, strokeWidth: string)

  /** The shade of a district's area: red when selected, otherwise by the
      share `registrations / max` against 0.7 and 0.4, compared as
      10 * registrations > 7 * max and 10 * registrations > 4 * max. */
  function FillColor(d: District, max: nat, selected: Option<string>): string {
    if selected == Some(d.name) then SelectedColor
    else if 10 * d.registrations > 7 * max then HighColor
    else if 10 * d.registrations > 4 * max then MediumColor
    else LowColor
  }

  /** The share as a real number. */
  function Intensity(registrations: nat, max: nat): real
    requires max > 0
  {
    registrations as real / max as real
  }

  /** The integer comparisons choose the same shade as comparing the real
      share with 0.7 and 0.4. */
  lemma {:induction false} FillColorMatchesShare(d: District, max: nat, selected: Option<string>)
    requires max > 0
    ensures var share := Intensity(d.registrations, max);
      FillColor(d, max, selected) ==
        if selected == Some(d.name) then SelectedColor
        else if share > 0.7 then HighColor
        else if share > 0.4 then MediumColor
        else LowColor
  {
    ShareAbove(d.registrations as real, max as real, 0.7);
    ShareAbove(d.registrations as real, max as real, 0.4);
  }

  /** For a positive denominator, r / m > t exactly when r > t * m. */
  lemma {:induction false} ShareAbove(r: real, m: real, t: real)
    requires m > 0.0
    ensures r / m > t <==> r > t * m
  {
    var q := r / m;
    assert q * m == r;
    assert r - t * m == (q - t) * m;
    if q > t {
      assert (q - t) * m > 0.0;
    } else {
      assert (t - q) * m >= 0.0;
    }
  }

  /** The district with the most registrations is shaded high unless it is
      selected, and a district with none is shaded low unless it is selected
      (also when every count is 0, where the share is not a number). */
  lemma {:induction false} FillColorExtremes(ds: seq<District>, i: nat, selected: Option<string>)
    requires i < |ds|
    ensures var max := MaxRegistrations(ds).value;
      && (ds[i].registrations == max && max > 0 && selected != Some(ds[i].name) ==>
            FillColor(ds[i], max, selected) == HighColor)
      && (ds[i].registrations == 0 && selected != Some(ds[i].name) ==> FillColor(ds[i], max, selected) == LowColor)
  {
  }

  /** The style of an area near a matched label: it always has a fill, so
      the grey pass of `FillUnmatched` leaves it as it is. */
  function MatchedStyle(d: District, max: nat, selected: Option<string>): (s: PathStyle)
    ensures s.fill != [] && s != NoDataStyle
  {
    PathStyle(FillColor(d, max, selected), "0.7", BorderColor, "1")
  }

  const NoDataStyle: PathStyle := PathStyle(NoDataColor, "0.5", BorderColor, "1")

  /** The last pass of the load handler: every area that still has no fill
      gets the grey no-data style; areas already shaded are untouched. */
  method FillUnmatched(paths: array<PathStyle>)
    modifies paths
    ensures forall i :: 0 <= i < paths.Length && old(paths[i].fill) == [] ==> paths[i] == NoDataStyle
    ensures forall i :: 0 <= i < paths.Length && old(paths[i].fill) != [] ==> paths[i] == old(paths[i])
    ensures forall i :: 0 <= i < paths.Length ==> paths[i].fill != []
  {
    ghost var original := paths[..];
    for k := 0 to paths.Length
      invariant forall i :: 0 <= i < k && original[i].fill == [] ==> paths[i] == NoDataStyle
      invariant forall i :: 0 <= i < k && original[i].fill != [] ==> paths[i] == original[i]
      invariant forall i :: k <= i < paths.Length ==> paths[i] == original[i]
      invariant forall i :: 0 <= i < k ==> paths[i].fill != []
    {
      if paths[k].fill == [] {
        paths[k] := NoDataStyle;
      }
    }
  }
}
