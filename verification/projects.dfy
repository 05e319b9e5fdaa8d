/** The projects carousel: one active project out of five, cyclic next and
    previous, swipe gestures, a strip of other projects to jump to, and a
    read-more toggle. */
module Projects {
  import Cyclic

  /** The project titles, in display order; the titles are distinct. */
  const Titles: seq<string> := [
    "VaR Estimation System", "Market Trading Simulator", "Nanocash Platform", "GORENT", "The Last Shade"
  ]

  /** The short name each project's icon is keyed by, in display order. */
  const Keys: seq<string> := ["var", "trading", "nanocash", "gorent", "lastshade"]

  const Count: nat := 5

  datatype State = State(activeIndex: nat, isExpanded: bool)

  predicate Valid(st: State) {
    st.activeIndex < Count
  }

  const Initial: State := State(0, false)

  lemma TitlesShape()
    ensures |Titles| == Count && |Keys| == Count
    ensures forall i, j :: 0 <= i < j < Count ==> Titles[i] != Titles[j]
  {
  }

  /** `nextProject`. */
  function NextProject(st: State): (t: State)
    requires Valid(st)
    ensures Valid(t) && t.isExpanded == st.isExpanded
    ensures t.activeIndex == if st.activeIndex == Count - 1 then 0 else st.activeIndex + 1
  {
    st.(activeIndex := Cyclic.Next(st.activeIndex, Count))
  }

  /** `prevProject`. */
  function PrevProject(st: State): (t: State)
    requires Valid(st)
    ensures Valid(t) && t.isExpanded == st.isExpanded
    ensures t.activeIndex == if st.activeIndex == 0 then Count - 1 else st.activeIndex - 1
  {
    st.(activeIndex := Cyclic.Prev(st.activeIndex, Count))
  }

  /** Next and previous undo each other. */
  lemma NextPrevInverse(st: State)
    requires Valid(st)
    ensures PrevProject(NextProject(st)) == st
    ensures NextProject(PrevProject(st)) == st
  {
    Cyclic.PrevNext(st.activeIndex, Count);
    Cyclic.NextPrev(st.activeIndex, Count);
  }

  /** `k` presses of next. */
  function Forward(st: State, k: nat): (t: State)
    requires Valid(st)
    ensures Valid(t) && t.isExpanded == st.isExpanded
    ensures t.activeIndex == Cyclic.Advance(st.activeIndex, Count, k)
  {
    if k == 0 then st else NextProject(Forward(st, k - 1))
  }

  /** `k` presses of next land on the project `k` places further on,
      counted modulo five. */
  lemma {:induction false} ForwardModulo(st: State, k: nat)
    requires Valid(st)
    ensures Forward(st, k).activeIndex == (st.activeIndex + k) % 5
  {
    if k > 0 {
      ForwardModulo(st, k - 1);
    }
  }

  /** Pressing next once per project comes back to the start. */
  lemma ForwardFullCircle(st: State)
    requires Valid(st)
    ensures Forward(st, |Titles|) == st
  {
    Cyclic.FullCircle(st.activeIndex, Count);
  }

  /** `handleDragEnd`: a swipe right of more than 50 pixels goes back, a
      swipe left of more than 50 goes forward, anything shorter stays. */
  function DragEnd(st: State, offset: real): (t: State)
    requires Valid(st)
    ensures Valid(t) && t.isExpanded == st.isExpanded
    ensures offset > 50.0 ==> t == PrevProject(st)
    ensures offset < -50.0 ==> t == NextProject(st)
    ensures -50.0 <= offset <= 50.0 ==> t == st
  {
    if offset > 50.0 then PrevProject(st)
    else if offset < -50.0 then NextProject(st)
    else st
  }

  /** The read-more button: flips the long description, keeps the project. */
  function ToggleExpanded(st: State): (t: State)
    ensures t.activeIndex == st.activeIndex && t.isExpanded == !st.isExpanded
  {
    st.(isExpanded := !st.isExpanded)
  }

  /** Toggling twice restores the card. */
  lemma ToggleTwice(st: State)
    ensures ToggleExpanded(ToggleExpanded(st)) == st
  {
  }

  /** Indicator dot `i`: that project becomes active. */
  function SelectDot(st: State, i: nat): (t: State)
    requires i < Count
    ensures Valid(t) && t.activeIndex == i && t.isExpanded == st.isExpanded
  {
    st.(activeIndex := i)
  }

  /** The indices `lo..n-1` except `skip`, in increasing order. */
  function Others(lo: nat, n: nat, skip: nat): (r: seq<nat>)
    requires lo <= n
    ensures forall k :: 0 <= k < |r| ==> lo <= r[k] < n && r[k] != skip
    ensures forall k, m :: 0 <= k < m < |r| ==> r[k] < r[m]
    ensures forall j :: lo <= j < n && j != skip ==> j in r
    ensures |r| == if lo <= skip < n then n - lo - 1 else n - lo
    decreases n - lo
  {
    if lo == n then []
    else if lo == skip then Others(lo + 1, n, skip)
    else [lo] + Others(lo + 1, n, skip)
  }

  /** The preview strip: the projects other than the active one, in their
      order, at most three. */
  function Preview(st: State): (r: seq<nat>)
    requires Valid(st)
    ensures |r| == 3
    ensures forall k :: 0 <= k < |r| ==> r[k] < Count && r[k] != st.activeIndex
    ensures forall k, m :: 0 <= k < m < |r| ==> r[k] < r[m]
    ensures r == Others(0, Count, st.activeIndex)[..3]
  {
    Others(0, Count, st.activeIndex)[..3]
  }

  /** The strip starts from the first non-active project, so nothing it
      could show earlier is skipped. */
  lemma PreviewIsFirstThree(st: State, j: nat)
    requires Valid(st) && j < Count && j != st.activeIndex
    requires j <= Preview(st)[2]
    ensures j in Preview(st)
  {
    var o := Others(0, Count, st.activeIndex);
    assert j in o;
    var k :| 0 <= k < |o| && o[k] == j;
    assert Preview(st)[k] == j;
  }

  /** `Array.prototype.findIndex` by equality: the first position holding
      `x`, or -1. */
  function FindIndex(xs: seq<string>, x: string): (r: int)
    ensures -1 <= r < |xs|
    ensures r == -1 <==> x !in xs
    ensures r >= 0 ==> xs[r] == x && forall k :: 0 <= k < r ==> xs[k] != x
  {
    if |xs| == 0 then -1
    else if xs[0] == x then 0
    else var r := FindIndex(xs[1..], x); if r == -1 then -1 else r + 1
  }

  /** With distinct entries, the entry at `i` is found at `i`. */
  lemma {:induction false} FindIndexDistinct(xs: seq<string>, i: nat)
    requires i < |xs|
    requires forall a, b :: 0 <= a < b < |xs| ==> xs[a] != xs[b]
    ensures FindIndex(xs, xs[i]) == i
  {
    if i > 0 {
      assert xs[0] != xs[i];
      FindIndexDistinct(xs[1..], i - 1);
    }
  }

  /** A click on a preview card: the project found by its title becomes
      active. */
  function ClickPreview(st: State, j: nat): (t: State)
    requires Valid(st) && j < |Titles|
    ensures Valid(t) && t.isExpanded == st.isExpanded
    ensures Titles[t.activeIndex] == Titles[j] && t.activeIndex <= j
  {
    st.(activeIndex := FindIndex(Titles, Titles[j]))
  }

  /** Because the titles are distinct, clicking a preview card activates
      exactly that project. */
  lemma ClickPreviewSelects(st: State, k: nat)
    requires Valid(st) && k < |Preview(st)|
    ensures ClickPreview(st, Preview(st)[k]) == st.(activeIndex := Preview(st)[k])
    ensures Valid(ClickPreview(st, Preview(st)[k]))
  {
    TitlesShape();
    FindIndexDistinct(Titles, Preview(st)[k]);
  }

  datatype Icon = Home | TrendingUp | BarChart3 | CreditCard | Gamepad2
  datatype KeyedIcon = KeyedIcon(icon: Icon, key: string)

  /** `getProjectIcon`'s icon list as written: it is in a different order
      from the projects, so every project but the last gets another
      project's icon. */
  const IconsAsWritten: seq<KeyedIcon> := [
    KeyedIcon(Home, "gorent"), KeyedIcon(TrendingUp, "var"), KeyedIcon(BarChart3, "trading"),
    KeyedIcon(CreditCard, "nanocash"), KeyedIcon(Gamepad2, "lastshade")
  ]

  /** The same icons in project order. */
  const Icons: seq<KeyedIcon> := [
    KeyedIcon(TrendingUp, "var"), KeyedIcon(BarChart3, "trading"), KeyedIcon(CreditCard, "nanocash"),
    KeyedIcon(Home, "gorent"), KeyedIcon(Gamepad2, "lastshade")
  ]

  /** `icons[index] || <TrendingUp/>` over a given list. */
  function IconFrom(icons: seq<KeyedIcon>, index: nat): (r: Icon)
    ensures index < |icons| ==> r == icons[index].icon
    ensures index >= |icons| ==> r == TrendingUp
  {
    if index < |icons| then icons[index].icon else TrendingUp
  }

  /** The icon shown for the active project, as written. */
  function ProjectIconAsWritten(index: nat): Icon {
    IconFrom(IconsAsWritten, index)
  }

  /** The icon shown for the active project, from the list in project order. */
  function ProjectIcon(index: nat): Icon {
    IconFrom(Icons, index)
  }

  /** As written, the VaR project (index 0) shows the house icon keyed
      "gorent", and GORENT (index 3) shows the card icon keyed "nanocash". */
  lemma IconMismatchAsWritten()
    ensures Titles[0] == "VaR Estimation System" && IconsAsWritten[0].key == "gorent"
    ensures ProjectIconAsWritten(0) == Home && ProjectIconAsWritten(3) == CreditCard
    ensures exists i :: 0 <= i < Count && IconsAsWritten[i].key != Keys[i]
  {
    assert IconsAsWritten[0].key != Keys[0];
  }

  /** In project order, each project's icon is the one keyed by its name,
      and the house icon goes to GORENT alone. */
  lemma IconsMatchProjects()
    ensures |Icons| == Count
    ensures forall i :: 0 <= i < Count ==> Icons[i].key == Keys[i]
    ensures forall i :: 0 <= i < Count ==> (ProjectIcon(i) == Home <==> Titles[i] == "GORENT")
  {
  }
}
