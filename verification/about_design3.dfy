/** The AI automation showcase of the about section: four features, one of
    them active, rotating on a timer while autoplay is on; clicking a
    feature's button selects it and stops the rotation, and the play/pause
    button switches the rotation. */
module AboutDesign3 {
  import Cyclic
  import Text

  /** The feature titles, in order. */
  const Titles: seq<string> := ["Smart Analytics", "Process Automation", "Risk Protection", "Scalable Growth"]

  const Count: nat := 4

  datatype State = State(activeFeature: nat, isAutoPlay: bool)

  predicate Valid(st: State) {
    st.activeFeature < Count
  }

  const Initial: State := State(0, true)

  lemma InitialValid()
    ensures |Titles| == Count && Valid(Initial) && Initial.isAutoPlay
  {
  }

  /** One timer period: while autoplay is on the next feature becomes
      active, wrapping after the last; with autoplay off there is no timer. */
  function Tick(st: State): (t: State)
    requires Valid(st)
    ensures Valid(t) && t.isAutoPlay == st.isAutoPlay
    ensures st.isAutoPlay && st.activeFeature + 1 < Count ==> t.activeFeature == st.activeFeature + 1
    ensures st.isAutoPlay && st.activeFeature + 1 == Count ==> t.activeFeature == 0
    ensures !st.isAutoPlay ==> t == st
  {
    if st.isAutoPlay then st.(activeFeature := Cyclic.Next(st.activeFeature, Count)) else st
  }

  /** `k` timer periods: with autoplay on, the feature `k` places further
      on, counted modulo four. */
  function Ticks(st: State, k: nat): (t: State)
    requires Valid(st)
    ensures Valid(t) && t.isAutoPlay == st.isAutoPlay
    ensures st.isAutoPlay ==> t.activeFeature == Cyclic.Advance(st.activeFeature, Count, k)
    ensures st.isAutoPlay ==> t.activeFeature == (st.activeFeature + k) % Count
    ensures !st.isAutoPlay ==> t == st
  {
    if k == 0 then st
    else
      ModuloStep(st.activeFeature + k - 1);
      Tick(Ticks(st, k - 1))
  }

  /** One more step after reducing modulo four is one more step before it. */
  lemma ModuloStep(a: nat)
    ensures a % Count + 1 < Count ==> (a + 1) % Count == a % Count + 1
    ensures a % Count + 1 == Count ==> (a + 1) % Count == 0
  {
  }

  /** A full rotation comes back to the feature it started from. */
  lemma RotationReturns(st: State)
    requires Valid(st) && st.isAutoPlay
    ensures Ticks(st, Count) == st
  {
    Cyclic.FullCircle(st.activeFeature, Count);
  }

  /** Every feature comes round within one rotation: feature `j` is active
      after `j - activeFeature` periods, counted modulo four. */
  lemma RotationVisits(st: State, j: nat)
    requires Valid(st) && st.isAutoPlay && j < Count
    ensures var a := st.activeFeature;
            var k := if a <= j then j - a else j + Count - a;
            k < Count && Ticks(st, k).activeFeature == j
  {
    var a := st.activeFeature;
    if a <= j {
      Cyclic.AdvanceWithin(a, Count, j - a);
    } else {
      Cyclic.AdvanceWrap(a, Count, j + Count - a);
    }
  }

  /** A feature button: that feature becomes active and the rotation stops. */
  function ClickFeature(st: State, index: nat): (t: State)
    requires index < Count
    ensures Valid(t) && t.activeFeature == index && !t.isAutoPlay
  {
    State(index, false)
  }

  /** After a click the chosen feature stays active however long one waits. */
  lemma ClickHolds(st: State, index: nat, k: nat)
    requires index < Count
    ensures Ticks(ClickFeature(st, index), k).activeFeature == index
  {
  }

  /** The play/pause button: switches the rotation, keeps the feature. */
  function TogglePlay(st: State): (t: State)
    ensures t.activeFeature == st.activeFeature && t.isAutoPlay == !st.isAutoPlay
  {
    st.(isAutoPlay := !st.isAutoPlay)
  }

  /** Pressing play/pause twice restores the state. */
  lemma TogglePlayTwice(st: State)
    ensures TogglePlay(TogglePlay(st)) == st
  {
  }

  /** The button label: the title's first space-separated word. */
  function NavLabel(title: string): (word: string)
    ensures |word| <= |title| && word == title[..|word|] && ' ' !in word
    ensures |word| == |title| || title[|word|] == ' '
  {
    Text.SplitFirst(title, ' ');
    Text.Split(title, ' ')[0]
  }

  /** The label is the whole title when the title has no space. */
  lemma NavLabelNoSpace(title: string)
    requires ' ' !in title
    ensures NavLabel(title) == title
  {
  }

  /** The four buttons read Smart, Process, Risk and Scalable. */
  lemma NavLabelSmart()
    ensures NavLabel(Titles[0]) == "Smart"
  {
    var t := Titles[0];
    assert t[5] == ' ' && t[..5] == "Smart";
    FirstWord(t, "Smart");
  }

  lemma NavLabelProcess()
    ensures NavLabel(Titles[1]) == "Process"
  {
    var t := Titles[1];
    assert t[7] == ' ' && t[..7] == "Process";
    FirstWord(t, "Process");
  }

  lemma NavLabelRisk()
    ensures NavLabel(Titles[2]) == "Risk"
  {
    var t := Titles[2];
    assert t[4] == ' ' && t[..4] == "Risk";
    FirstWord(t, "Risk");
  }

  lemma NavLabelScalable()
    ensures NavLabel(Titles[3]) == "Scalable"
  {
    var t := Titles[3];
    assert t[8] == ' ' && t[..8] == "Scalable";
    FirstWord(t, "Scalable");
  }

  lemma FirstWord(title: string, word: string)
    requires |word| < |title| && title[..|word|] == word && title[|word|] == ' ' && ' ' !in word
    ensures NavLabel(title) == word
  {
    Text.SplitFirstUnique(title, ' ', word);
  }

  /** The progress bar's width in percent: a quarter per feature up to the
      active one. */
  function ProgressWidth(st: State): (w: real)
    requires Valid(st)
    ensures 0.0 < w <= 100.0
    ensures w == 100.0 <==> st.activeFeature == Count - 1
    ensures w * Count as real == 100.0 * (st.activeFeature + 1) as real
  {
    (st.activeFeature + 1) as real / Count as real * 100.0
  }
}
