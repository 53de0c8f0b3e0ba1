/** The 2016 election page: the district-to-constituency table, the
    constituency options for the selected district, the generated candidate
    directory, the uploaded list that overrides it, and the two-level
    district/constituency filter. */
module Election {
  import opened Options
  import opened CandidateCsv

  /** One district with its constituencies, in the table's order. */
  datatype Entry = Entry(district: string, constituencies: seq<string>)

  /** The select value that stands for "no filter". */
  const All: string := "all"

  /** The district-to-constituency table, entries in insertion order (the
      order in which the page enumerates them). */
  const DistrictConstituencies: seq<Entry> := [
    Entry("அரியலூர்", [
      "அரியலூர்", "ஜெயங்கொண்டம்", "திருமானூர்"]),
    Entry("சென்னை", [
      "சென்னை - அண்ணாநகர்", "சென்னை - ஆயிரம் விளக்கு", "சென்னை - ஆழ்வார் திருநகர்", "சென்னை - டாக்டர் இராதாகிருஷ்ணன் நகர்",
      "சென்னை - தியாகராய நகர்", "சென்னை - மயிலாப்பூர்", "சென்னை - வடபழனி", "சென்னை - வில்லிவாக்கம்",
      "சென்னை - வீராணம்", "டாம்ஸ் டவுன்", "கிண்டி", "ஆலந்தூர்",
      "திருவோட்டியூர்", "திருவல்லிக்கேணி"]),
    Entry("கோயம்புத்தூர்", [
      "கோயம்புத்தூர் (தெற்கு)", "கோயம்புத்தூர் (வடக்கு)", "சுலூர்", "கவுன்டம்பாளையம்",
      "தொண்டாமுத்தூர்", "கிணத்துக்கடவு", "பொள்ளாச்சி", "வல்பாரை",
      "ஆனைமலை"]),
    Entry("கடலூர்", [
      "கடலூர்", "குறிஞ்சிபாடி", "பண்ருட்டி", "கட்டுமன்னார்கோவில்",
      "விருதாச்சலம்"]),
    Entry("தர்மபுரி", [
      "தருமபுரி", "பாப்பிரெட்டிபட்டி", "பாலக்கோடு", "ஹரூர்",
      "பென்னாகரம்"]),
    Entry("திண்டுக்கல்", [
      "திண்டுக்கல்", "நத்தம்", "நீலக்கோட்டை", "பழனி",
      "வெடசந்தூர்"]),
    Entry("ஈரோடு", [
      "எரோடு (கிழக்கு)", "எரோடு (மேற்கு)", "பவானி", "பெருந்துறை",
      "பரங்கிப்பேட்டை", "கோபி", "மொடக்குறிச்சி"]),
    Entry("காஞ்சிபுரம்", [
      "காஞ்சிபுரம்", "அரக்கோணம்", "சோழிங்கர்", "செஞ்சி",
      "திருப்பூர்", "உத்திரமேரூர்"]),
    Entry("கன்னியாகுமரி", [
      "கணியாகுமரி", "நாகர்கோவில்", "கொல்லங்கோடு", "வெள்ளிமலை"]),
    Entry("கரூர்", [
      "கரூர்", "கிருஷ்ணராயபுரம்", "குளித்தலை", "அரவக்குறிச்சி"]),
    Entry("கிருஷ்ணகிரி", [
      "கிருஷ்ணகிரி", "வேபனபல்லி", "ஹொசூர்", "உத்தங்கரை",
      "பர்கூர்"]),
    Entry("மதுரை", [
      "மதுரை - கிழக்கு", "மதுரை - தெற்கு", "மதுரை - மத்திய", "மதுரை - மேற்கு",
      "மதுரை - வடக்கு", "மதுரை (ஆவடிகாடு)", "திருப்பரங்குன்றம்", "மேலூர்"]),
    Entry("நாகப்பட்டினம்", [
      "நாகப்பட்டினம்", "கிள்வேளூர்", "வேதாரண்யம்", "மயிலாடுதுறை"]),
    Entry("நாமக்கல்", [
      "நாமக்கல்", "ராசிபுரம்", "சென்னிமலை", "பரமதி"]),
    Entry("நீலகிரி", [
      "நீலகிரி", "உதகமண்டலம்", "கூடலூர்", "குன்னூர்"]),
    Entry("பெரம்பலூர்", [
      "பெரம்பலூர்", "குண்டம்", "வேப்பந்தாவடி"]),
    Entry("புதுக்கோட்டை", [
      "புதுக்கோட்டை", "அலங்குடி", "திருவரங்குளம்", "கந்தர்வகோட்டை"]),
    Entry("இராமநாதபுரம்", [
      "இராமநாதபுரம்", "முதுகுளத்தூர்", "பரமக்குடி", "திருவாடாணை"]),
    Entry("சேலம்", [
      "சேலம் (தெற்கு)", "சேலம் (மேற்கு)", "சேலம் (வடக்கு)", "வீரகுப்பம்",
      "ஆத்தூர்", "ஒமலூர்", "மேட்டூர்", "எடப்பாடி"]),
    Entry("சிவகங்கை", [
      "சிவகங்கை", "கராத்துறை", "மானாமதுரை", "திருப்புவனம்"]),
    Entry("தஞ்சாவூர்", [
      "தஞ்சாவூர்", "திருவையாறு", "குடந்தை", "பாபநாசம்",
      "பட்டுக்கோட்டை", "பேராவூரணி", "ஒராத்தநாடு"]),
    Entry("தேனி", [
      "தேனி", "போடிநாயக்கனூர்", "பெரியகுளம்", "ஆண்டிபட்டி"]),
    Entry("திருச்சி", [
      "திருச்சி (கிழக்கு)", "திருச்சி (மத்திய)", "திருச்சி (மேற்கு)", "சீரங்கம்",
      "முசிறி", "மணப்பாறை", "மணச்சநல்லூர்", "திருவெரம்பூர்"]),
    Entry("திருநெல்வேலி", [
      "திருநெல்வேலி", "அம்பாசமுத்திரம்", "பாளையங்கோட்டை", "ராதாபுரம்",
      "நாங்குநேரி"]),
    Entry("திருப்பூர்", [
      "திருப்பூர் (வடக்கு)", "திருப்பூர் (தெற்கு)", "காங்கயம்", "அவினாசி",
      "பாலாச்சேரி", "உடுமலை"]),
    Entry("திருவள்ளூர்", [
      "திருவள்ளூர்", "பூந்தமல்லி", "ஆவடி", "மதுரவாயல்",
      "பொன்னேரி", "கும்மிடிப்பூண்டி"]),
    Entry("திருவண்ணாமலை", [
      "திருவண்ணாமலை", "கீழ்பெண்ணாத்தூர்", "ஆரணி", "செய்யாறு",
      "வந்தவாசி", "போளூர்", "கலசப்பாக்கம்", "செங்கம்"]),
    Entry("திருவாரூர்", [
      "திருவாரூர்", "நன்னிலம்", "திருத்துறைப்பூண்டி", "மன்னார்குடி",
      "திருவிடைமருதூர்"]),
    Entry("தூத்துக்குடி", [
      "தூத்துக்குடி", "திருச்செந்தூர்", "சாத்தன்குளம்", "கோவில்பட்டி",
      "விளாத்திகுளம்"]),
    Entry("வேலூர்", [
      "வேலூர்", "காத்பாடி", "ஆனைக்கட்டி", "அம்பூர்",
      "வாணியம்பாடி", "ஆர்க்காடு"]),
    Entry("விழுப்புரம்", [
      "விழுப்புரம்", "விக்கிரவாண்டி", "திருக்கோயிலூர்", "உலுந்துர்பேட்டை",
      "சானரூர்", "மைலம்", "கபிஸ்தலம்"]),
    Entry("விருதுநகர்", [
      "விருதுநகர்", "சாதுர்", "இராஜபாளையம்", "சிவகாசி",
      "திருச்சுழி", "அருப்புக்கோட்டை"])
  ]

  /** The full constituency list offered when no district is selected. */
  const AllConstituencies: seq<string> := [
    "அரக்கோணம்", "அரந்தாங்கி", "அரியலூர்", "அரூர்", "அலங்குளம்",
    "அலங்காநல்லூர்", "அழகர்குவில்", "அழிஞ்சிவாக்கம்", "அன்னூர்", "அம்பாசமுத்திரம்",
    "அம்பாத்துறை", "அம்பூர்", "ஆத்தூர்", "ஆண்டிப்பட்டி", "ஆதிராமபட்டினம்",
    "ஆந்தூர்", "ஆனைக்கட்டி", "ஆனைமலை", "ஆர்க்காடு", "ஆர்காம்",
    "ஆலந்தூர்", "ஆலங்குளம்", "ஆவடி", "ஆவணி", "இடப்பாடி",
    "இராசிபுரம்", "இராணிப்பேட்டை", "இராஜபாளையம்", "இளையான்குடி", "உடுமலைப்பேட்டை",
    "உத்தமபாளையம்", "உத்தங்கரை", "உத்திரமேரூர்", "உத்தரமெரூர்", "உசிலம்பட்டி",
    "ஊத்துக்குளி", "ஊத்துமலை", "ஊரன்", "எஃகூர்", "எட்டையபுரம்",
    "எண்ணோர்", "எரோடு (கிழக்கு)", "எரோடு (மேற்கு)", "ஏலகிரி", "ஐந்தக்கரை",
    "ஒசூர்", "ஒட்டன்சத்திரம்", "ஓமலூர்", "ஓத்தக்கடை", "கங்கவல்லி",
    "கங்கைகொண்டான்", "கடவூர்", "கடம்பத்தூர்", "கடலூர்", "கடையநல்லூர்",
    "கடையம்", "கணியாகுமரி", "கணேஷமங்கலம்", "கரூர்", "கல்லக்குறிச்சி",
    "களக்காடு", "களப்பட்டு", "கவின்திப்பாடி", "காட்டுமன்னார்குடி", "காஞ்சிபுரம்",
    "காரைக்குடி", "கிண்டி", "கிள்ளியூர்", "குடந்தை", "குடவாசல்",
    "குடியாத்தம்", "குண்டம்", "குன்னம்", "குன்னூர்", "குன்றக்குடி",
    "கும்பகோணம்", "கூடலூர்", "கூடானூர்", "கூடுவாஞ்சேரி", "கொடைக்கானல்",
    "கொடுமுடி", "கொடுங்கையூர்", "கொல்லிமலை", "கோவில்பட்டி", "கோட்டூர்",
    "கோபாலபுரம்", "கோபி", "கோயம்புத்தூர் (தெற்கு)", "கோயம்புத்தூர் (வடக்கு)", "சங்கரன்கோவில்",
    "சங்ககிரி", "சாத்தூர்", "சாயல்குடி", "சிதம்பரம்", "சிறுகுளம்",
    "சிறுமலை", "சீர்காழி", "சீனி (வடக்கு)", "செட்டிபுன்னியம்", "செங்கத்து",
    "செங்கம்", "செஞ்சி", "செம்மனார் கோவில்", "சேரன்மாதேவி", "சேலம் (தெற்கு)",
    "சேலம் (மேற்கு)", "சேலம் (வடக்கு)", "சென்னை - அண்ணாநகர்", "சென்னை - ஆயிரம் விளக்கு", "சென்னை - ஆழ்வார் திருநகர்",
    "சென்னை - டாக்டர் இராதாகிருஷ்ணன் நகர்", "சென்னை - தியாகராய நகர்", "சென்னை - மயிலாப்பூர்", "சென்னை - வடபழனி", "சென்னை - வில்லிவாக்கம்",
    "சென்னை - வீராணம்", "சொரப்பட்டு", "சோழவந்தான்", "சோழிங்கர்", "டாம்ஸ் டவுன்",
    "தஞ்சாவூர்", "தருமபுரி", "தலைவாசல்", "திண்டல்", "திண்டுக்கல்",
    "திருக்கோயிலூர்", "திருச்சி (கிழக்கு)", "திருச்சி (மத்திய)", "திருச்சி (மேற்கு)", "திருச்செந்தூர்",
    "திருத்தணி", "திருத்துறைப்பூண்டி", "திருநெல்வேலி", "திருப்பத்தூர்", "திருப்பரங்குன்றம்",
    "திருப்போர்", "திருமங்கலம்", "திருமயம்", "திருமுல்லைவாயல்", "திருவண்ணாமலை",
    "திருவாடாணை", "திருவாரூர்", "திருவிடைமருதூர்", "திருவில்லிபுத்தூர்", "திருவெறும்பூர்",
    "திருவோட்டியூர்", "தீர்த்தம்", "தேங்காசி", "தேவகோட்டை", "தொண்டாமுத்தூர்",
    "நகர்கோவில்", "நம்மக்கல்", "நல்லூர்", "நாகப்பட்டினம்", "நாகர்கோவில்",
    "நாஞ்சிக்கொட்டை", "நாமக்கல்", "நீடாமங்கலம்", "நீலகிரி", "பட்டினாம்",
    "பட்டுக்கோட்டை", "பண்ணைமாடு", "பண்ருட்டி", "பரமக்குடி", "பரமத்தி",
    "பழனி", "பழனிசாமி", "பழாயங்கோட்டை", "பழையதம்", "பழையமாநேரி",
    "பாபநாசம்", "பாண்டி", "பாளச்சோழன்பட்டு", "பாளையம்கோட்டை", "பூந்தமல்லி",
    "பூதனூர்", "பூவணம்மலை", "பெண்ணாகரம்", "பெரம்பலூர்", "பெரியகுளம்",
    "பெரியகுன்னம்", "பெருந்துறை", "பெருமணல்மேடு", "பேரகம்", "பேராவூரணி",
    "பொள்ளாச்சி", "பொன்னேரி", "மதுரை - கிழக்கு", "மதுரை - தெற்கு", "மதுரை - மத்திய",
    "மதுரை - மேற்கு", "மதுரை - வடக்கு", "மதுரை (ஆவடிகாடு)", "மணப்பாறை", "மணலி",
    "மணலூர்", "மதுரன்த்தகம்", "மயிலாடுதுறை", "மாதவரம்", "மாந்தனாம்",
    "மாயவரம்", "முதுகுளத்தூர்", "முசிறி", "முஸ்ஸியம்பாடி", "மேட்டூர்",
    "மேலூர்", "வசதாலை", "வடமதுரை", "வடிப்பட்டி", "வட்டலகுண்டு",
    "வண்டலூர்", "வண்டவாசி", "வத்திராயிருப்பு", "வந்தவாசி", "வல்பாரை",
    "வல்லம்", "வாலாஜாபேட்டை", "வாலாஜா", "வாழப்பாடி", "விருதாச்சலம்",
    "விருத்தாசலம்", "விருதுநகர்", "வில்லுபுரம்", "வீரபாண்டி கட்டபோம்மன்", "வேம்பார்",
    "வேப்பனபல்லி", "வேளூர்", "வேளூர் (வடக்கு)"
  ]

  // ---------------------------------------------------------------------------
  // Constituency options

  /** The index of the first entry for `district`, `|table|` when there is none. */
  function EntryIndex(table: seq<Entry>, district: string): (i: nat)
    ensures i <= |table|
  {
    if table == [] then 0
    else if table[0].district == district then 0
    else 1 + EntryIndex(table[1..], district)
  }

  lemma {:induction false} EntryIndexSpec(table: seq<Entry>, district: string)
    ensures var i := EntryIndex(table, district);
      && (forall j :: 0 <= j < i ==> table[j].district != district)
      && (i < |table| ==> table[i].district == district)
  {
    if table != [] && table[0].district != district {
      EntryIndexSpec(table[1..], district);
    }
  }

  /** `districtConstituencies[district] || []`. */
  function LookupOrEmpty(table: seq<Entry>, district: string): seq<string> {
    var i := EntryIndex(table, district);
    if i < |table| then table[i].constituencies else []
  }

  /** `getFilteredConstituencies`: every constituency when no district is
      selected, otherwise the selected district's list. */
  function FilteredConstituencies(table: seq<Entry>, all: seq<string>, selectedDistrict: string): seq<string> {
    if selectedDistrict == All then all else LookupOrEmpty(table, selectedDistrict)
  }

  /** With `'all'` the options are the full list; for a district in the table
      they are that district's list (its first entry); for any other value
      they are empty. */
  lemma {:induction false} FilteredConstituenciesSpec(table: seq<Entry>, all: seq<string>, selectedDistrict: string)
    ensures selectedDistrict == All ==> FilteredConstituencies(table, all, selectedDistrict) == all
    ensures selectedDistrict != All ==>
      forall i :: (0 <= i < |table| && table[i].district == selectedDistrict &&
        forall j :: 0 <= j < i ==> table[j].district != selectedDistrict) ==>
        FilteredConstituencies(table, all, selectedDistrict) == table[i].constituencies
    ensures selectedDistrict != All && (forall i :: 0 <= i < |table| ==> table[i].district != selectedDistrict) ==>
      FilteredConstituencies(table, all, selectedDistrict) == []
  {
    EntryIndexSpec(table, selectedDistrict);
  }

  // ---------------------------------------------------------------------------
  // Generated candidates

  /** The constituency whose candidate is the party's chief coordinator. */
  const LeaderConstituency: string := "சென்னை - அண்ணாநகர்"
  const LeaderName: string := "செந்தமிழன் சீமான்"
  const CandidatePrefix: string := "வேட்பாளர் - "

  function CandidateName(constituency: string): string {
    if constituency == LeaderConstituency then LeaderName else CandidatePrefix + constituency
  }

  /** The leader's name is given to the one constituency and to no other:
      every other name is the prefix followed by the constituency, from which
      the constituency can be read back. */
  lemma {:induction false} CandidateNameSpec(constituency: string)
    ensures CandidateName(constituency) == LeaderName <==> constituency == LeaderConstituency
    ensures constituency != LeaderConstituency ==>
      var n := CandidateName(constituency);
      |n| == |CandidatePrefix| + |constituency| && n[..|CandidatePrefix|] == CandidatePrefix
      && n[|CandidatePrefix|..] == constituency
  {
    var n := CandidateName(constituency);
    if constituency != LeaderConstituency {
      assert n[..|CandidatePrefix|] == CandidatePrefix;
      assert n[0] != LeaderName[0];
    }
  }

  /** A (district, constituency) pair of the table. */
  datatype Seat = Seat(district: string, constituency: string)

  /** The seats of one entry, in the entry's order. */
  function EntrySeats(e: Entry): (seats: seq<Seat>)
    ensures |seats| == |e.constituencies|
    ensures forall j :: 0 <= j < |seats| ==> seats[j] == Seat(e.district, e.constituencies[j])
  {
    seq(|e.constituencies|, j requires 0 <= j < |e.constituencies| => Seat(e.district, e.constituencies[j]))
  }

  /** Every seat of the table, entry by entry. */
  function Seats(table: seq<Entry>): seq<Seat> {
    if table == [] then [] else Seats(table[..|table| - 1]) + EntrySeats(table[|table| - 1])
  }

  lemma {:induction false} SeatsAppend(a: seq<Entry>, b: seq<Entry>)
    ensures Seats(a + b) == Seats(a) + Seats(b)
    decreases |b|
  {
    if b != [] {
      var b' := b[..|b| - 1];
      assert (a + b)[..|a + b| - 1] == a + b';
      SeatsAppend(a, b');
    } else {
      assert a + b == a;
    }
  }

  /** Seat j of entry i sits at position |Seats(table[..i])| + j: the seats
      are all the pairs of the table, each once, in the table's order. */
  lemma {:induction false} SeatsAt(table: seq<Entry>, i: nat, j: nat)
    requires i < |table| && j < |table[i].constituencies|
    ensures |Seats(table[..i])| + j < |Seats(table)|
    ensures Seats(table)[|Seats(table[..i])| + j] == Seat(table[i].district, table[i].constituencies[j])
  {
    assert table == table[..i] + [table[i]] + table[i + 1..];
    SeatsAppend(table[..i] + [table[i]], table[i + 1..]);
    SeatsAppend(table[..i], [table[i]]);
    assert Seats([table[i]]) == EntrySeats(table[i]) by {
      assert [table[i]][..0] == [];
    }
  }

  /** The generated candidate with the given id for a seat. */
  function MakeCandidate(id: int, s: Seat): Candidate {
    Candidate(
      id := id,
      name := CandidateName(s.constituency),
      constituency := s.constituency,
      district := s.district,
      age := "45",
      education := "எம்.ஏ",
      joinedYear := DefaultJoinedYear,
      phone := DefaultPhone,
      email := DefaultEmail,
      bio := DefaultBio)
  }

  /** One candidate per seat, numbered from 1 in seat order. */
  function Numbered(seats: seq<Seat>): (cs: seq<Candidate>)
    ensures |cs| == |seats|
  {
    if seats == [] then [] else Numbered(seats[..|seats| - 1]) + [MakeCandidate(|seats|, seats[|seats| - 1])]
  }

  lemma {:induction false} NumberedAt(seats: seq<Seat>)
    ensures forall k :: 0 <= k < |seats| ==> Numbered(seats)[k] == MakeCandidate(k + 1, seats[k])
  {
    if seats != [] {
      var init := seats[..|seats| - 1];
      NumberedAt(init);
      assert forall k :: 0 <= k < |init| ==> seats[k] == init[k];
    }
  }

  lemma {:induction false} NumberedSnoc(seats: seq<Seat>, s: Seat)
    ensures Numbered(seats + [s]) == Numbered(seats) + [MakeCandidate(|seats| + 1, s)]
  {
    assert (seats + [s])[..|seats|] == seats;
  }

  lemma {:induction false} TakeSnoc<T>(before: seq<T>, xs: seq<T>, j: nat)
    requires j < |xs|
    ensures before + xs[..j + 1] == (before + xs[..j]) + [xs[j]]
  {
    assert xs[..j + 1] == xs[..j] + [xs[j]];
  }

  lemma {:induction false} SeatsSnoc(table: seq<Entry>, i: nat)
    requires i < |table|
    ensures Seats(table[..i + 1]) == Seats(table[..i]) + EntrySeats(table[i])
  {
    assert table[..i + 1][..i] == table[..i];
  }

  /** `generateAllCandidates`: a running id and a push for every constituency
      of every entry, giving one candidate per seat in seat order (see
      `NumberedAt`: candidate k is made for seat k with id k + 1). */
  method GenerateAllCandidates(table: seq<Entry>) returns (candidates: seq<Candidate>)
    ensures candidates == Numbered(Seats(table))
  {
    candidates := [];
    var id := 1;
    for i := 0 to |table|
      invariant candidates == Numbered(Seats(table[..i]))
      invariant id == |candidates| + 1
    {
      var district := table[i].district;
      var list := table[i].constituencies;
      ghost var before := Seats(table[..i]);
      ghost var seats := EntrySeats(table[i]);
      assert before + seats[..0] == before;
      for j := 0 to |list|
        invariant candidates == Numbered(before + seats[..j])
        invariant id == |candidates| + 1
      {
        TakeSnoc(before, seats, j);
        NumberedSnoc(before + seats[..j], seats[j]);
        candidates := candidates + [MakeCandidate(id, Seat(district, list[j]))];
        id := id + 1;
      }
      SeatsSnoc(table, i);
      assert seats[..|list|] == seats;
    }
    assert table[..|table|] == table;
  }

  /** `allCandidates`: a non-empty uploaded list wholly replaces the
      generated one. */
  /** The candidates the page generates from its own district table. */
  const DefaultCandidates: seq<Candidate> := Numbered(Seats(DistrictConstituencies))

  function AllCandidates(uploaded: seq<Candidate>, generated: seq<Candidate>): seq<Candidate> {
    if |uploaded| > 0 then uploaded else generated
  }

  // ---------------------------------------------------------------------------
  // Filtering

  /** `Array.prototype.filter`. */
  function Filter<T>(s: seq<T>, p: T -> bool): (r: seq<T>)
    ensures |r| <= |s|
  {
    if s == [] then [] else (if p(s[0]) then [s[0]] else []) + Filter(s[1..], p)
  }

  /** `a` is `b` with some elements dropped, the rest in their order. */
  predicate IsSubsequence<T(==)>(a: seq<T>, b: seq<T>) {
    if a == [] then true
    else if b == [] then false
    else (a[0] == b[0] && IsSubsequence(a[1..], b[1..])) || IsSubsequence(a, b[1..])
  }

  /** A filter keeps exactly the elements that satisfy its predicate, in
      their order. */
  lemma {:induction false} FilterSpec<T>(s: seq<T>, p: T -> bool)
    ensures IsSubsequence(Filter(s, p), s)
    ensures forall x :: x in Filter(s, p) ==> x in s && p(x)
    ensures forall x :: x in s && p(x) ==> x in Filter(s, p)
  {
    if s != [] {
      FilterSpec(s[1..], p);
      if p(s[0]) {
        assert Filter(s, p)[1..] == Filter(s[1..], p);
      } else {
        assert Filter(s, p) == Filter(s[1..], p);
      }
      assert s == [s[0]] + s[1..];
    }
  }

  /** A filter whose predicate holds everywhere changes nothing. */
  lemma {:induction false} FilterAll<T>(s: seq<T>, p: T -> bool)
    requires forall x :: x in s ==> p(x)
    ensures Filter(s, p) == s
  {
    if s != [] {
      FilterAll(s[1..], p);
      assert [s[0]] + s[1..] == s;
    }
  }

  /** Filters by predicates that agree on every element give the same result. */
  lemma {:induction false} FilterAgree<T>(s: seq<T>, p: T -> bool, q: T -> bool)
    requires forall x :: x in s ==> p(x) == q(x)
    ensures Filter(s, p) == Filter(s, q)
  {
    if s != [] {
      FilterAgree(s[1..], p, q);
    }
  }

  /** Filtering by `p`, then by `q`, is filtering once by their conjunction `r`. */
  lemma {:induction false} FilterFilter<T>(s: seq<T>, p: T -> bool, q: T -> bool, r: T -> bool)
    requires forall x :: r(x) == (p(x) && q(x))
    ensures Filter(Filter(s, p), q) == Filter(s, r)
  {
    if s != [] {
      FilterFilter(s[1..], p, q, r);
      if p(s[0]) {
        assert Filter(s, p) == [s[0]] + Filter(s[1..], p);
        assert ([s[0]] + Filter(s[1..], p))[1..] == Filter(s[1..], p);
      } else {
        assert Filter(s, p) == Filter(s[1..], p);
      }
    }
  }

  /** A candidate passes the page's filter: each selection applies unless it
      is `'all'`. */
  predicate Matches(c: Candidate, selectedDistrict: string, selectedConstituency: string) {
    (selectedDistrict == All || c.district == selectedDistrict)
    && (selectedConstituency == All || c.constituency == selectedConstituency)
  }

  /** `getFilteredCandidates`: the district filter, then the constituency
      filter, each only when its selection is not `'all'`. */
  function FilteredCandidates(cs: seq<Candidate>, selectedDistrict: string, selectedConstituency: string): seq<Candidate> {
    var byDistrict := if selectedDistrict != All then Filter(cs, (c: Candidate) => c.district == selectedDistrict) else cs;
    if selectedConstituency != All then Filter(byDistrict, (c: Candidate) => c.constituency == selectedConstituency) else byDistrict
  }

  /** The two-stage filter is the one-pass filter by `Matches`: an
      order-preserving subsequence that keeps every matching candidate and
      nothing else; `'all'`/`'all'` keeps the list unchanged. */
  lemma {:induction false} FilteredCandidatesSpec(cs: seq<Candidate>, selectedDistrict: string, selectedConstituency: string)
    ensures var r := FilteredCandidates(cs, selectedDistrict, selectedConstituency);
      && r == Filter(cs, (c: Candidate) => Matches(c, selectedDistrict, selectedConstituency))
      && IsSubsequence(r, cs)
      && (forall c :: c in r ==> c in cs && Matches(c, selectedDistrict, selectedConstituency))
      && (forall c :: c in cs && Matches(c, selectedDistrict, selectedConstituency) ==> c in r)
      && (selectedDistrict == All && selectedConstituency == All ==> r == cs)
  {
    var d, k := selectedDistrict, selectedConstituency;
    var m := (c: Candidate) => Matches(c, d, k);
    var pd := (c: Candidate) => c.district == d;
    var pk := (c: Candidate) => c.constituency == k;
    if d != All && k != All {
      FilterFilter(cs, pd, pk, m);
    } else if d != All {
      FilterAgree(cs, pd, m);
    } else if k != All {
      FilterAgree(cs, pk, m);
    } else {
      FilterAll(cs, m);
    }
    FilterSpec(cs, m);
  }

  // ---------------------------------------------------------------------------
  // Page state

  /** The page's state: the two selections and the uploaded list. */
  class ElectionPage {
    var selectedDistrict: string
    var selectedConstituency: string
    var uploadedCandidates: seq<Candidate>

    /** Both selections start at `'all'`; the uploaded list is the one kept
        from an earlier visit (empty when there is none). */
    constructor (stored: seq<Candidate>)
      ensures selectedDistrict == All && selectedConstituency == All
      ensures uploadedCandidates == stored
    {
      selectedDistrict := All;
      selectedConstituency := All;
      uploadedCandidates := stored;
    }

    /** `handleDistrictChange`: select the district and reset the
        constituency to `'all'`. */
    method HandleDistrictChange(value: string)
      modifies this
      ensures selectedDistrict == value && selectedConstituency == All
      ensures uploadedCandidates == old(uploadedCandidates)
    {
      selectedDistrict := value;
      selectedConstituency := All;
    }

    /** The constituency select: only the constituency changes. */
    method HandleConstituencyChange(value: string)
      modifies this
      ensures selectedConstituency == value
      ensures selectedDistrict == old(selectedDistrict) && uploadedCandidates == old(uploadedCandidates)
    {
      selectedConstituency := value;
    }

    /** `handleCandidatesImport`: the imported list replaces the uploaded one. */
    method HandleCandidatesImport(candidates: seq<Candidate>)
      modifies this
      ensures uploadedCandidates == candidates
      ensures selectedDistrict == old(selectedDistrict) && selectedConstituency == old(selectedConstituency)
    {
      uploadedCandidates := candidates;
    }

    /** The constituency options shown for the current district. */
    function ConstituencyOptions(): seq<string>
      reads this
    {
      FilteredConstituencies(DistrictConstituencies, AllConstituencies, selectedDistrict)
    }

    /** The candidates shown: the uploaded list when it is non-empty, else
        the generated one, then filtered by the selections. */
    function Displayed(): seq<Candidate>
      reads this
    {
      FilteredCandidates(AllCandidates(uploadedCandidates, DefaultCandidates), selectedDistrict, selectedConstituency)
    }
  }

  /** What the page shows: exactly the candidates of the list in use that
      match both selections, in list order, where the list in use is the
      uploaded one when it is non-empty and the generated one otherwise. */
  lemma {:induction false} DisplayedSpec(page: ElectionPage)
    ensures var inUse := if |page.uploadedCandidates| > 0 then page.uploadedCandidates else DefaultCandidates;
      var r := page.Displayed();
      && IsSubsequence(r, inUse)
      && (forall c :: c in r <==> c in inUse && Matches(c, page.selectedDistrict, page.selectedConstituency))
  {
    FilteredCandidatesSpec(AllCandidates(page.uploadedCandidates, DefaultCandidates), page.selectedDistrict,
      page.selectedConstituency);
  }

  /** After a district change the page shows every candidate of that
      district, whatever constituency was selected before. */
  lemma {:induction false} AfterDistrictChange(cs: seq<Candidate>, district: string)
    ensures forall c :: c in cs && c.district == district ==> c in FilteredCandidates(cs, district, All)
  {
    FilteredCandidatesSpec(cs, district, All);
  }
}
