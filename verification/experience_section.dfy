/** The leadership cards with a category filter: each card shows its first
    four achievements unless it is the one expanded card, and labels its
    metrics by splitting the camel-case key into words. */
module ExperienceSection {
  import opened Wrappers

  /** The fields of a card the model keeps; the achievement texts are an
      argument of `ShownAchievements`. */
  datatype Experience = Experience(organization: string, category: string, metricKeys: seq<string>)

  const Experiences: seq<Experience> := [
    Experience("IEEE ESPRIT Student Branch", "Technical Leadership",
      ["events", "growth", "reach", "competitions"]),
    Experience("Rotaract Clubs", "Community Impact",
      ["projects", "donations", "meals", "fundraised"])
  ]

  /** The filter buttons. */
  const Categories: seq<string> := ["all", "Technical Leadership", "Community Impact"]

  datatype State = State(selectedCategory: string, expandedCard: Option<nat>)

  const Initial: State := State("all", None)

  predicate Matches(selected: string, e: Experience) {
    selected == "all" || e.category == selected
  }

  /** The cards shown for a selected category, in their original order. */
  function Filtered(exps: seq<Experience>, selected: string): (r: seq<Experience>)
    ensures |r| <= |exps|
    ensures forall e :: e in r <==> e in exps && Matches(selected, e)
    ensures selected == "all" ==> r == exps
  {
    if |exps| == 0 then []
    else (if Matches(selected, exps[0]) then [exps[0]] else []) + Filtered(exps[1..], selected)
  }

  /** Filtering a list in two parts filters each part in place, so the
      cards keep their relative order. */
  lemma {:induction false} FilteredAppend(a: seq<Experience>, b: seq<Experience>, selected: string)
    ensures Filtered(a + b, selected) == Filtered(a, selected) + Filtered(b, selected)
  {
    if |a| == 0 {
      assert a + b == b;
    } else {
      assert (a + b)[1..] == a[1..] + b;
      FilteredAppend(a[1..], b, selected);
    }
  }

  /** Every category button other than "all" shows exactly one card. */
  lemma EachCategoryOneCard(k: nat)
    requires 1 <= k < |Categories|
    ensures |Filtered(Experiences, Categories[k])| == 1
    ensures Filtered(Experiences, Categories[k])[0] == Experiences[k - 1]
  {
    assert Experiences[1..][1..] == [];
  }

  /** Choosing a category keeps the expanded index as it was. */
  function SelectCategory(st: State, category: string): (t: State)
    ensures t.selectedCategory == category && t.expandedCard == st.expandedCard
  {
    st.(selectedCategory := category)
  }

  /** Show All / Show Less on card `index`: collapses it if it is the
      expanded one, else makes it the only expanded card. */
  function ToggleCard(st: State, index: nat): (t: State)
    ensures st.expandedCard == Some(index) ==> t.expandedCard == None
    ensures st.expandedCard != Some(index) ==> t.expandedCard == Some(index)
    ensures t.selectedCategory == st.selectedCategory
  {
    st.(expandedCard := if st.expandedCard == Some(index) then None else Some(index))
  }

  /** Pressing the same card's button twice restores the previous state when
      that card was collapsed. */
  lemma ToggleTwice(st: State, index: nat)
    requires st.expandedCard != Some(index)
    ensures ToggleCard(ToggleCard(st, index), index) == st.(expandedCard := None)
  {
  }

  /** The index keeps pointing at a position in the filtered list, so after
      switching from "all" to "Community Impact" the Rotaract card is the
      expanded one if the first card (IEEE) was. */
  lemma ExpandedIndexIsPositional()
    ensures var t := SelectCategory(ToggleCard(Initial, 0), "Community Impact");
      && t.expandedCard == Some(0)
      && Filtered(Experiences, t.selectedCategory)[0].organization == "Rotaract Clubs"
      && Filtered(Experiences, Initial.selectedCategory)[0].organization == "IEEE ESPRIT Student Branch"
  {
    EachCategoryOneCard(2);
  }

  /** The achievements card `index` shows: all when expanded, else the first
      four (fewer if it has fewer). */
  function ShownAchievements(st: State, index: nat, achievements: seq<string>): (r: seq<string>)
    ensures st.expandedCard == Some(index) ==> r == achievements
    ensures st.expandedCard != Some(index) ==>
              |r| == (if |achievements| < 4 then |achievements| else 4) && r == achievements[..|r|]
  {
    if st.expandedCard == Some(index) then achievements
    else if |achievements| < 4 then achievements
    else achievements[..4]
  }

  predicate IsUpper(c: char) {
    'A' <= c <= 'Z'
  }

  /** Number of ASCII capitals in `s`. */
  function Uppers(s: string): nat {
    if |s| == 0 then 0 else (if IsUpper(s[0]) then 1 else 0) + Uppers(s[1..])
  }

  /** `key.replace(/([A-Z])/g, ' $1')`: a space before every capital. */
  function MetricLabel(key: string): (r: string)
    ensures |r| == |key| + Uppers(key)
    ensures Uppers(key) == 0 ==> r == key
  {
    if |key| == 0 then ""
    else (if IsUpper(key[0]) then [' ', key[0]] else [key[0]]) + MetricLabel(key[1..])
  }

  /** One character: a capital gets a space in front, anything else is
      copied. */
  lemma MetricLabelChar(c: char)
    ensures MetricLabel([c]) == if IsUpper(c) then [' ', c] else [c]
  {
    assert [c][1..] == [];
  }

  /** The label of a key is the labels of its parts side by side, so each
      space lands right before its own capital. */
  lemma {:induction false} MetricLabelAppend(a: string, b: string)
    ensures MetricLabel(a + b) == MetricLabel(a) + MetricLabel(b)
    decreases |a|
  {
    if |a| == 0 {
      assert a + b == b;
    } else {
      assert (a + b)[0] == a[0];
      assert (a + b)[1..] == a[1..] + b;
      MetricLabelAppend(a[1..], b);
    }
  }

  /** All spaces removed. */
  function NoSpaces(s: string): string {
    if |s| == 0 then ""
    else (if s[0] == ' ' then "" else [s[0]]) + NoSpaces(s[1..])
  }

  /** The label only inserts spaces: removing them gives the key back. */
  lemma {:induction false} LabelRemovesToKey(key: string)
    requires ' ' !in key
    ensures NoSpaces(MetricLabel(key)) == key
  {
    if |key| > 0 {
      LabelRemovesToKey(key[1..]);
      var head := if IsUpper(key[0]) then [' ', key[0]] else [key[0]];
      NoSpacesAppend(head, MetricLabel(key[1..]));
      if IsUpper(key[0]) {
        assert NoSpaces(head) == [key[0]] by {
          assert head[1..] == [key[0]];
          assert NoSpaces(head[1..][1..]) == "";
        }
      } else {
        assert head[1..] == [];
      }
      assert key == [key[0]] + key[1..];
    }
  }

  lemma {:induction false} NoSpacesAppend(a: string, b: string)
    ensures NoSpaces(a + b) == NoSpaces(a) + NoSpaces(b)
  {
    if |a| == 0 {
      assert a + b == b;
    } else {
      assert (a + b)[1..] == a[1..] + b;
      NoSpacesAppend(a[1..], b);
    }
  }

  /** The source's metric keys are all lower case, so their labels are the
      keys themselves. */
  lemma MetricLabelsUnchanged(k: nat, m: nat)
    requires k < |Experiences| && m < |Experiences[k].metricKeys|
    ensures MetricLabel(Experiences[k].metricKeys[m]) == Experiences[k].metricKeys[m]
  {
    var key := Experiences[k].metricKeys[m];
    assert forall i :: 0 <= i < |key| ==> !IsUpper(key[i]);
    NoUppers(key);
  }

  lemma {:induction false} NoUppers(s: string)
    requires forall i :: 0 <= i < |s| ==> !IsUpper(s[i])
    ensures Uppers(s) == 0
  {
    if |s| > 0 {
      assert forall i :: 0 <= i < |s| - 1 ==> s[1..][i] == s[i + 1];
      NoUppers(s[1..]);
    }
  }
}
