/** The leadership timeline: the experiences of three organisations laid
    end to end, one active entry, cyclic navigation, a row of year buttons
    for the active entry's organisation, and a row of dots. */
module Journey {
  import Cyclic
  import Text

  datatype Experience = Experience(year: string, title: string)

  datatype Org = Org(id: string, experiences: seq<Experience>)

  /** An entry of the flattened timeline: the experience and its organisation. */
  datatype Entry = Entry(org: Org, experience: Experience)

  const Ieee: Org := Org("ieee", [
    Experience("2023", "Robotics & Automation Leadership"),
    Experience("2022", "IEEE Brand Ambassadorship"),
    Experience("2021", "Media & Communication Foundation")])

  const Lions: Org := Org("lions", [
    Experience("2023", "Back-to-School Action")])

  const Rotaract: Org := Org("rotaract", [
    Experience("2024", "Humanitarian Impact & Legacy"),
    Experience("2023", "Educational Infrastructure Development"),
    Experience("2022", "Media & Event Coordination")])

  const Organizations: seq<Org> := [Ieee, Lions, Rotaract]

  /** One organisation's experiences, each tagged with it. */
  function Tag(o: Org): (r: seq<Entry>)
    ensures |r| == |o.experiences|
    ensures forall j :: 0 <= j < |r| ==> r[j] == Entry(o, o.experiences[j])
  {
    seq(|o.experiences|, j requires 0 <= j < |o.experiences| => Entry(o, o.experiences[j]))
  }

  /** All organisations' tagged experiences, in organisation order. */
  function Flatten(orgs: seq<Org>): seq<Entry> {
    if |orgs| == 0 then [] else Tag(orgs[0]) + Flatten(orgs[1..])
  }

  /** How many experiences the first `k` organisations have between them:
      where the k-th organisation's block starts. */
  function Offset(orgs: seq<Org>, k: nat): nat
    requires k <= |orgs|
  {
    if k == 0 then 0 else |orgs[0].experiences| + Offset(orgs[1..], k - 1)
  }

  /** The k-th organisation's j-th experience sits at its offset plus `j`. */
  lemma {:induction false} FlattenAt(orgs: seq<Org>, k: nat, j: nat)
    requires k < |orgs| && j < |orgs[k].experiences|
    ensures Offset(orgs, k) + j < |Flatten(orgs)|
    ensures Flatten(orgs)[Offset(orgs, k) + j] == Entry(orgs[k], orgs[k].experiences[j])
  {
    if k > 0 {
      FlattenAt(orgs[1..], k - 1, j);
    }
  }

  /** `allExperiences`: the three organisations' lists spread in order. */
  const AllExperiences: seq<Entry> := Tag(Organizations[0]) + Tag(Organizations[1]) + Tag(Organizations[2])

  const Total: nat := 7

  /** The timeline is the flattening of all organisations, 3, 1 and 3
      entries long. */
  lemma AllExperiencesShape()
    ensures |AllExperiences| == Total
    ensures AllExperiences == Flatten(Organizations)
    ensures |Ieee.experiences| == 3 && |Lions.experiences| == 1 && |Rotaract.experiences| == 3
  {
    var rest := Organizations[1..];
    assert rest == [Lions, Rotaract] && rest[1..] == [Rotaract] && rest[1..][1..] == [];
    assert Flatten(rest[1..]) == Tag(Rotaract) + [];
  }

  /** The block starts 0, 3 and 4, and the end 7, computed from the lists. */
  lemma Offsets()
    ensures Offset(Organizations, 0) == 0 && Offset(Organizations, 1) == 3
    ensures Offset(Organizations, 2) == 4 && Offset(Organizations, 3) == 7
  {
    var rest := Organizations[1..];
    assert rest == [Lions, Rotaract] && rest[1..] == [Rotaract] && rest[1..][1..] == [];
    assert Offset(rest[1..], 1) == 3;
    assert Offset(rest, 1) == 1 && Offset(rest, 2) == 4;
  }

  /** The hard-coded start of the year buttons' block. */
  function OrgStartIndex(id: string): nat {
    if id == "lions" then 3 else if id == "rotaract" then 4 else 0
  }

  /** The hard-coded starts are the true offsets of each organisation. */
  lemma StartIndexIsOffset(k: nat)
    requires k < |Organizations|
    ensures OrgStartIndex(Organizations[k].id) == Offset(Organizations, k)
  {
    Offsets();
  }

  /** The organisation block an entry index falls in. */
  function OrgOf(active: nat): (k: nat)
    requires active < Total
    ensures k < |Organizations|
    ensures Offset(Organizations, k) <= active < Offset(Organizations, k) + |Organizations[k].experiences|
  {
    Offsets();
    if active < 3 then 0 else if active < 4 then 1 else 2
  }

  /** The entry at `active` belongs to organisation `OrgOf(active)`. */
  lemma EntryOrg(active: nat)
    requires active < Total
    ensures AllExperiences[active].org == Organizations[OrgOf(active)]
  {
    var k := OrgOf(active);
    FlattenAt(Organizations, k, active - Offset(Organizations, k));
    AllExperiencesShape();
  }

  /** Year button `j` of the active entry's organisation selects that
      organisation's j-th experience. */
  function YearButton(active: nat, j: nat): (a: nat)
    requires active < Total
  {
    OrgStartIndex(AllExperiences[active].org.id) + j
  }

  lemma YearButtonSelects(active: nat, j: nat)
    requires active < Total
    requires j < |AllExperiences[active].org.experiences|
    ensures YearButton(active, j) < Total
    ensures var o := AllExperiences[active].org;
            AllExperiences[YearButton(active, j)] == Entry(o, o.experiences[j])
  {
    var k := OrgOf(active);
    EntryOrg(active);
    StartIndexIsOffset(k);
    FlattenAt(Organizations, k, j);
    AllExperiencesShape();
  }

  /** Exactly one year button is highlighted: the one for the active entry. */
  lemma OneHighlighted(active: nat)
    requires active < Total
    ensures var o := AllExperiences[active].org;
            (set j | 0 <= j < |o.experiences| && YearButton(active, j) == active)
            == {active - OrgStartIndex(o.id)}
  {
    var k := OrgOf(active);
    EntryOrg(active);
    StartIndexIsOffset(k);
    AllExperiencesShape();
    var o := AllExperiences[active].org;
    var s := OrgStartIndex(o.id);
    assert 0 <= active - s < |o.experiences|;
    assert YearButton(active, active - s) == active;
  }

  /** The timer and the forward button: the following entry, and the first
      after the last. */
  function Next(active: nat): (r: nat)
    requires active < Total
    ensures r < Total
    ensures active + 1 < Total ==> r == active + 1
    ensures active + 1 == Total ==> r == 0
  {
    Cyclic.Next(active, Total)
  }

  /** The back button: the preceding entry, and the last before the first. */
  function Prev(active: nat): (r: nat)
    requires active < Total
    ensures r < Total
    ensures 0 < active ==> r == active - 1
    ensures active == 0 ==> r == Total - 1
  {
    Cyclic.Prev(active, Total)
  }

  /** Forward and back undo each other. */
  lemma NextPrevInverse(active: nat)
    requires active < Total
    ensures Prev(Next(active)) == active && Next(Prev(active)) == active
  {
    Cyclic.PrevNext(active, Total);
    Cyclic.NextPrev(active, Total);
  }

  /** Dot `i` of the mini timeline, one per entry. */
  function Dot(i: nat): (r: nat)
    requires i < |AllExperiences|
    ensures r < Total && r == i
  {
    AllExperiencesShape();
    i
  }

  /** The progress badge: `${activeExperience + 1}/${allExperiences.length}`. */
  function Progress(active: nat): (r: string)
    requires active < Total
    ensures |r| == 3 && r[1] == '/' && r[2] == '7'
    ensures '1' <= r[0] <= '7' && r[0] as int - '0' as int == active + 1
  {
    AllExperiencesShape();
    [Text.DigitChar(active + 1)] + "/" + Text.NatToString(|AllExperiences|)
  }
}
