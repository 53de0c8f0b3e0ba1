/** The district ranking panel: registration counts per district, their
    total, count and rounded average, the ranking sorted in place by
    registrations (most first), the rank of the selected district and the
    click that selects or clears a district. */
module RegistrationStats {
  import opened Options
  import opened Arith

  datatype District = District(name: string, tamil: string, registrations: nat)

  /** The panel's district list, in its written order. It is spelt out in
      four consecutive runs so that the sum of each run can be evaluated on
      its own. */
  const Districts: seq<District> :=
    Districts1To9 + Districts10To18 + Districts19To27 + Districts28To35

  const Districts1To9: seq<District> := [
    District("Chennai", "சென்னை", 5393),
    District("Chengalpattu", "செங்கல்பட்டு", 1237),
    District("Kancheepuram", "காஞ்சிபுரம்", 845),
    District("Ranipet", "ராணிப்பேட்டை", 623),
    District("Vellore", "வேலூர்", 912),
    District("Tiruppattur", "திருப்பத்தூர்", 456),
    District("Krishnagiri", "கிருஷ்ணாகிரி", 1158),
    District("Dharmapuri", "தர்மபுரி", 534),
    District("Salem", "சேலம்", 2070)
  ]

  const Districts10To18: seq<District> := [
    District("Namakkal", "நாமக்கல்", 723),
    District("Erode", "ஈரோடு", 1413),
    District("Karur", "கரூர்", 612),
    District("Tiruppur", "திருப்பூர்", 1470),
    District("Coimbatore", "கோயம்பத்தூர்", 2102),
    District("The Nilgiris", "நீலகிரி", 389),
    District("Tiruchirappalli", "திருச்சிராப்பள்ளி", 1602),
    District("Ariyalur", "அரியலூர்", 445),
    District("Perambalur", "பெரம்பலூர்", 378)
  ]

  const Districts19To27: seq<District> := [
    District("Cuddalore", "கடலூர்", 567),
    District("Villupuram", "விழுப்புரம்", 689),
    District("Tiruvannamalai", "திருவண்ணாமலை", 1258),
    District("Tiruvarur", "திருவாரூர்", 598),
    District("Thanjavur", "தஞ்சாவூர்", 1316),
    District("Nagapattinam", "நாகப்பட்டிணம்", 478),
    District("Mayiladuthurai", "மயிலாடுதுறை", 412),
    District("Puducherry", "புதுச்சேரி", 734),
    District("Madurai", "மதுரை", 2002)
  ]

  const Districts28To35: seq<District> := [
    District("Theni", "தேனி", 756),
    District("Dindigul", "திண்டுக்கல்", 1171),
    District("Sivagangai", "சிவகங்கை", 623),
    District("Ramanathapuram", "ராமநாதபுரம்", 534),
    District("Thoothukudi", "தூத்துக்குடி", 845),
    District("Tirunelveli", "தென்காசி", 912),
    District("Kanyakumari", "கன்னியாகுமரி", 1770),
    District("Pudukkottai", "புதுக்கோட்டை", 689)
  ]

  // ---------------------------------------------------------------------------
  // Aggregates

  /** `districts.reduce((sum, d) => sum + d.registrations, 0)`. */
  function Total(ds: seq<District>): nat {
    if ds == [] then 0 else ds[0].registrations + Total(ds[1..])
  }

  lemma {:induction false} TotalAppend(a: seq<District>, b: seq<District>)
    ensures Total(a + b) == Total(a) + Total(b)
  {
    if a != [] {
      assert (a + b)[1..] == a[1..] + b;
      TotalAppend(a[1..], b);
    } else {
      assert a + b == b;
    }
  }

  /** Every district's count is part of the total. */
  lemma {:induction false} TotalBounds(ds: seq<District>)
    ensures forall i :: 0 <= i < |ds| ==> ds[i].registrations <= Total(ds)
  {
    if ds != [] {
      TotalBounds(ds[1..]);
      assert forall i :: 1 <= i < |ds| ==> ds[i] == ds[1..][i - 1];
    }
  }

  /** Taking district k out of a sequence takes its count out of the total. */
  lemma {:induction false} TotalRemove(b: seq<District>, k: nat)
    requires k < |b|
    ensures Total(b) == b[k].registrations + Total(b[..k] + b[k + 1..])
  {
    assert b == b[..k] + [b[k]] + b[k + 1..];
    TotalAppend(b[..k] + [b[k]], b[k + 1..]);
    TotalAppend(b[..k], [b[k]]);
    TotalAppend(b[..k], b[k + 1..]);
  }

  /** What is left of `b` after taking out one occurrence of the first
      element of `a` is a permutation of the rest of `a`. */
  lemma {:induction false} MultisetRemove(a: seq<District>, b: seq<District>, k: nat)
    requires a != [] && k < |b| && b[k] == a[0] && multiset(a) == multiset(b)
    ensures multiset(a[1..]) == multiset(b[..k] + b[k + 1..])
  {
    assert a == [a[0]] + a[1..];
    assert b == b[..k] + [b[k]] + b[k + 1..];
    calc {
      multiset(a[1..]);
      multiset(a) - multiset{a[0]};
      multiset(b) - multiset{a[0]};
      multiset(b[..k]) + multiset(b[k + 1..]);
      multiset(b[..k] + b[k + 1..]);
    }
  }

  /** The total does not depend on the order of the districts, so sorting
      the array does not change it. */
  lemma {:induction false} TotalPermutation(a: seq<District>, b: seq<District>)
    requires multiset(a) == multiset(b)
    ensures Total(a) == Total(b)
    decreases |a|
  {
    if a != [] {
      assert a[0] in multiset(b);
      var k :| 0 <= k < |b| && b[k] == a[0];
      MultisetRemove(a, b, k);
      TotalPermutation(a[1..], b[..k] + b[k + 1..]);
      TotalRemove(b, k);
    } else {
      assert |b| == |multiset(b)| == 0;
    }
  }

  /** `Math.round(total / count)` on non-negative integers: `None` stands for
      the `NaN` of a division by zero. */
  function RoundedAverage(total: nat, count: nat): Option<nat> {
    if count == 0 then None else Some((2 * total + count) / (2 * count))
  }

  /** The rounded average is the integer nearest to total/count, halves
      rounded up: r - 1/2 <= total/count < r + 1/2, written without
      fractions as r * 2count <= 2total + count < r * 2count + 2count; and it
      is the only integer with that property. */
  lemma {:induction false} RoundedAverageSpec(total: nat, count: nat)
    ensures RoundedAverage(total, count).None? <==> count == 0
    ensures count > 0 ==>
      var r := RoundedAverage(total, count).value;
      && r * (2 * count) <= 2 * total + count < r * (2 * count) + 2 * count
      && forall r': int :: r' * (2 * count) <= 2 * total + count < r' * (2 * count) + 2 * count ==> r' == r
  {
    if count > 0 {
      var d := 2 * count;
      var n := 2 * total + count;
      var r := n / d;
      assert n == r * d + n % d;
      forall r': int | r' * d <= n < r' * d + d
        ensures r' == r
      {
        QuotientUnique(n, d, r, r');
      }
    }
  }

  // The sums of the four runs of the district list.

  lemma {:induction false} Total1To9()
    ensures Total(Districts1To9) == 13228
  {
  }

  lemma {:induction false} Total10To18()
    ensures Total(Districts10To18) == 9134
  {
  }

  lemma {:induction false} Total19To27()
    ensures Total(Districts19To27) == 8054
  {
  }

  lemma {:induction false} Total28To35()
    ensures Total(Districts28To35) == 7300
  {
  }

  /** The figures the panel shows: 35 districts, 37716 registrations in
      all, and their rounded average. */
  lemma {:induction false} PanelFigures()
    ensures |Districts| == 35
    ensures Total(Districts) == 37716
    ensures RoundedAverage(Total(Districts), |Districts|) == Some(1078)
  {
    assert RoundedAverage(37716, 35) == Some(1078);
    Total1To9();
    Total10To18();
    Total19To27();
    Total28To35();
    TotalAppend(Districts1To9 + Districts10To18 + Districts19To27, Districts28To35);
    TotalAppend(Districts1To9 + Districts10To18, Districts19To27);
    TotalAppend(Districts1To9, Districts10To18);
  }

  // ---------------------------------------------------------------------------
  // Ranking

  /** Registrations never increase along the sequence. */
  predicate Descending(s: seq<District>) {
    forall i, j :: 0 <= i < j < |s| ==> s[i].registrations >= s[j].registrations
  }

  /** The state of the insertion pass that moves district `i` forward: the
      first i + 1 districts are in order except around position `j`, where
      district `i` currently sits. */
  predicate Inserting(s: seq<District>, i: nat, j: nat) {
    j <= i < |s|
    && (forall p, q :: 0 <= p < q <= i && q != j ==> s[p].registrations >= s[q].registrations)
    && (0 < j < i ==> s[j - 1].registrations >= s[j + 1].registrations)
  }

  lemma {:induction false} InsertingStart(s: seq<District>, i: nat)
    requires i < |s| && Descending(s[..i])
    ensures Inserting(s, i, i)
  {
    assert forall p, q :: 0 <= p < q < i ==> s[..i][p] == s[p] && s[..i][q] == s[q];
  }

  lemma {:induction false} InsertingSwap(s: seq<District>, i: nat, j: nat)
    requires Inserting(s, i, j) && 0 < j && s[j - 1].registrations < s[j].registrations
    ensures Inserting(s[j - 1 := s[j]][j := s[j - 1]], i, j - 1)
  {
  }

  lemma {:induction false} InsertingDone(s: seq<District>, i: nat, j: nat)
    requires Inserting(s, i, j) && (j == 0 || s[j - 1].registrations >= s[j].registrations)
    ensures Descending(s[..i + 1])
  {
  }

  /** `districts.sort((a, b) => b.registrations - a.registrations)`, in place:
      an insertion sort that moves a district forward only past districts
      with fewer registrations, so districts with equal counts keep their
      order. */
  method SortByRegistrations(a: array<District>)
    modifies a
    ensures Descending(a[..])
    ensures multiset(a[..]) == multiset(old(a[..]))
    ensures Descending(old(a[..])) ==> a[..] == old(a[..])
  {
    ghost var original := a[..];
    for i := 0 to a.Length
      invariant Descending(a[..i])
      invariant multiset(a[..]) == multiset(original)
      invariant Descending(original) ==> a[..] == original
    {
      InsertingStart(a[..], i);
      var j := i;
      while j > 0 && a[j - 1].registrations < a[j].registrations
        invariant Inserting(a[..], i, j)
        invariant multiset(a[..]) == multiset(original)
        invariant Descending(original) ==> a[..] == original && j == i
      {
        InsertingSwap(a[..], i, j);
        SwapAdjacent(a, j);
        j := j - 1;
      }
      InsertingDone(a[..], i, j);
    }
    assert a[..a.Length] == a[..];
  }

  /** Exchange the districts at `j - 1` and `j`. */
  method SwapAdjacent(a: array<District>, j: nat)
    requires 0 < j < a.Length
    modifies a
    ensures a[..] == old(a[..])[j - 1 := old(a[j])][j := old(a[j - 1])]
    ensures multiset(a[..]) == multiset(old(a[..]))
  {
    a[j - 1], a[j] := a[j], a[j - 1];
  }

  /** `findIndex(d => d.name === selected)`: -1 when no district has the
      name, or when nothing is selected. */
  function IndexOf(ds: seq<District>, selected: Option<string>): (i: int)
    ensures -1 <= i < |ds|
  {
    if ds == [] || selected.None? then -1
    else if ds[0].name == selected.value then 0
    else var k := IndexOf(ds[1..], selected); if k < 0 then -1 else k + 1
  }

  /** The displayed rank: `findIndex(...) + 1`. */
  function Rank(ds: seq<District>, selected: Option<string>): nat {
    IndexOf(ds, selected) + 1
  }

  /** The rank of a listed district is the 1-based position of its first
      occurrence, so it lies in 1..|ds|; it is 0 exactly when the selected
      name is not listed (or nothing is selected). */
  lemma {:induction false} RankSpec(ds: seq<District>, selected: Option<string>)
    ensures var r := Rank(ds, selected);
      && r <= |ds|
      && (r == 0 <==> selected.None? || forall i :: 0 <= i < |ds| ==> ds[i].name != selected.value)
      && (r > 0 ==> ds[r - 1].name == selected.value && forall i :: 0 <= i < r - 1 ==> ds[i].name != selected.value)
  {
    if ds != [] && selected.Some? && ds[0].name != selected.value {
      RankSpec(ds[1..], selected);
      assert forall i :: 1 <= i < |ds| ==> ds[i] == ds[1..][i - 1];
    }
  }

  /** In the sorted ranking, a district ranks behind every district with
      more registrations. */
  lemma {:induction false} RankOrder(ds: seq<District>, selected: Option<string>, i: nat)
    requires Descending(ds)
    requires Rank(ds, selected) > 0 && i < |ds|
    requires ds[i].registrations > ds[Rank(ds, selected) - 1].registrations
    ensures i < Rank(ds, selected) - 1
  {
  }

  /** `districts.find(d => d.name === selected)?.registrations`. */
  function SelectedRegistrations(ds: seq<District>, selected: Option<string>): (r: Option<nat>)
    ensures r.None? <==> Rank(ds, selected) == 0
    ensures r.Some? ==> r.value == ds[Rank(ds, selected) - 1].registrations
  {
    var i := IndexOf(ds, selected);
    if i < 0 then None else Some(ds[i].registrations)
  }

  /** The click on a district: clicking the selected one clears the
      selection, clicking any other selects it. */
  function Toggle(selected: Option<string>, name: string): Option<string> {
    if selected == Some(name) then None else Some(name)
  }

  /** After a click the selection is either cleared, exactly when the clicked
      district was the selected one, or the clicked district; a second click
      on the same district clears it. */
  lemma {:induction false} ToggleSpec(selected: Option<string>, name: string)
    ensures Toggle(selected, name).None? <==> selected == Some(name)
    ensures Toggle(selected, name).Some? ==> Toggle(selected, name).value == name
    ensures selected != Some(name) ==> Toggle(Toggle(selected, name), name) == None
  {
  }

  /** The panel: the district array it sorts in place and the selection. */
  class RankingPanel {
    const districts: array<District>
    var selected: Option<string>

    constructor (ds: seq<District>)
      ensures fresh(districts) && districts[..] == ds && selected == None
    {
      districts := new District[|ds|](i requires 0 <= i < |ds| => ds[i]);
      selected := None;
    }

    /** A click on the district called `name`. */
    method Click(name: string)
      modifies this
      ensures selected == Toggle(old(selected), name)
    {
      selected := if selected == Some(name) then None else Some(name);
    }

    /** Render the ranking: sort the array in place, then number it. */
    method Ranking() returns (ranked: seq<District>)
      modifies districts
      ensures ranked == districts[..]
      ensures Descending(ranked) && multiset(ranked) == multiset(old(districts[..]))
      ensures Total(ranked) == Total(old(districts[..]))
    {
      SortByRegistrations(districts);
      ranked := districts[..];
      TotalPermutation(ranked, old(districts[..]));
    }

    /** The selected district's rank, read after sorting again; a second sort
        of the already-sorted array leaves it as it is. */
    method SelectedRank() returns (rank: nat)
      modifies districts
      ensures Descending(old(districts[..])) ==> districts[..] == old(districts[..])
      ensures Descending(districts[..]) && multiset(districts[..]) == multiset(old(districts[..]))
      ensures rank == Rank(districts[..], selected)
    {
      SortByRegistrations(districts);
      rank := Rank(districts[..], selected);
    }
  }
}
