/** The chat widget's rich-text formatter (`formatMessage`): five regular
    expression replacements applied in order, each modelled as a scan that
    follows the JavaScript matching rules (left to right, global flag,
    `.` stopping at line terminators, lazy `*?`, greedy `*` and `+`). */
module ChatFormat {
  import opened Wrappers
  import opened Text

  // ---------------------------------------------------------------------------
  // Step 1: `/\*\*(.*?)\*\*/g` -> `<strong>$1</strong>`
  // ---------------------------------------------------------------------------

  /** A "**" starts at index `i` of `s`. */
  predicate PairAt(s: string, i: int) {
    0 <= i && i + 1 < |s| && s[i] == '*' && s[i + 1] == '*'
  }

  predicate NoPair(s: string) {
    forall i :: 0 <= i < |s| ==> !PairAt(s, i)
  }

  predicate NoStar(s: string) {
    forall i :: 0 <= i < |s| ==> s[i] != '*'
  }

  /** Where the lazy `(.*?)\*\*` finds its closing pair in `s` (the text after
      an opening "**"): the first "**" that precedes every line terminator. */
  function CloseAt(s: string): (r: Option<nat>)
    ensures r.Some? ==> PairAt(s, r.value)
    decreases |s|
  {
    if |s| < 2 then None
    else if PairAt(s, 0) then Some(0)
    else if IsLineTerminator(s[0]) then None
    else
      match CloseAt(s[1..])
      case None => None
      case Some(k) => Some(k + 1)
  }

  /** The closing pair found is the first pair and lies on the current line;
      when none is found, every pair in `s` lies past a line terminator. */
  lemma {:induction false} CloseAtFirst(s: string)
    ensures CloseAt(s).Some? ==>
              forall j :: 0 <= j < CloseAt(s).value ==> !IsLineTerminator(s[j]) && !PairAt(s, j)
    ensures CloseAt(s).None? ==>
              forall j :: 0 <= j < |s| && PairAt(s, j) ==> exists t :: 0 <= t < j && IsLineTerminator(s[t])
    decreases |s|
  {
    if |s| >= 2 && !PairAt(s, 0) && IsLineTerminator(s[0]) {
      assert forall j :: 0 <= j < |s| && PairAt(s, j) ==> 0 < j && IsLineTerminator(s[0]);
    } else if |s| >= 2 && !PairAt(s, 0) {
      var u := s[1..];
      CloseAtFirst(u);
      assert forall j :: 1 <= j < |s| ==> (PairAt(s, j) <==> PairAt(u, j - 1));
      match CloseAt(u)
      case None =>
        forall j | 1 <= j < |s| && PairAt(s, j)
          ensures exists t :: 0 <= t < j && IsLineTerminator(s[t])
        {
          var t :| 0 <= t < j - 1 && IsLineTerminator(u[t]);
          assert IsLineTerminator(s[t + 1]);
        }
      case Some(k) =>
        forall j | 1 <= j < k + 1
          ensures !IsLineTerminator(s[j]) && !PairAt(s, j)
        {
          assert s[j] == u[j - 1];
        }
    }
  }

  /** One step of the left-to-right scan: what is emitted and how many input
      characters it consumes. */
  datatype Step = Step(emit: string, used: nat)

  /** A "**" with a same-line partner becomes one strong element; any other
      character is copied. */
  function BoldStep(s: string): (st: Step)
    requires |s| > 0
    ensures 1 <= st.used <= |s|
    ensures |st.emit| >= st.used
    ensures |st.emit| > 0 && (st.emit[0] == s[0] || st.emit[0] == '<')
  {
    if PairAt(s, 0) && CloseAt(s[2..]).Some? then
      var k := CloseAt(s[2..]).value;
      Step("<strong>" + s[2..2 + k] + "</strong>", 4 + k)
    else Step([s[0]], 1)
  }

  /** A step over text without line terminators emits none. */
  lemma BoldStepLines(s: string)
    requires |s| > 0 && NoTerminator(s)
    ensures NoTerminator(BoldStep(s).emit)
  {
    if PairAt(s, 0) && CloseAt(s[2..]).Some? {
      var k := CloseAt(s[2..]).value;
      var e := "<strong>" + s[2..2 + k] + "</strong>";
      forall i | 0 <= i < |e|
        ensures !IsLineTerminator(e[i])
      {
        if 8 <= i < 8 + k {
          assert e[i] == s[i - 6];
        }
      }
    }
  }

  /** The bold replacement: every same-line `**x**`, paired left to right with
      the shortest `x`, becomes `<strong>x</strong>`; everything else is copied. */
  function Bold(s: string): (r: string)
    ensures |r| >= |s|
    decreases |s|
  {
    if |s| == 0 then ""
    else
      var st := BoldStep(s);
      st.emit + Bold(s[st.used..])
  }

  /** The bold step never introduces a line break. */
  lemma {:induction false} BoldKeepsLines(s: string)
    requires NoTerminator(s)
    ensures NoTerminator(Bold(s))
    decreases |s|
  {
    if |s| > 0 {
      var st := BoldStep(s);
      BoldStepLines(s);
      assert NoTerminator(s[st.used..]);
      BoldKeepsLines(s[st.used..]);
    }
  }

  /** A character other than `*` is copied and the scan moves on. */
  lemma BoldCons(c: char, s: string)
    requires c != '*'
    ensures Bold([c] + s) == [c] + Bold(s)
  {
    assert ([c] + s)[1..] == s;
  }

  /** The first output character is the first input character, unless a
      strong element opens there. */
  lemma BoldHead(s: string)
    requires |s| > 0
    ensures |Bold(s)| > 0 && (Bold(s)[0] == s[0] || Bold(s)[0] == '<')
  {
  }

  /** A character at which no "**" starts is copied and the scan moves on. */
  lemma BoldCopy(s: string)
    requires |s| > 0 && !PairAt(s, 0)
    ensures Bold(s) == [s[0]] + Bold(s[1..])
  {
  }

  /** Text without any "**" passes through the bold step unchanged. */
  lemma {:induction false} BoldPlain(s: string)
    requires NoPair(s)
    ensures Bold(s) == s
    decreases |s|
  {
    if |s| > 0 {
      BoldCopy(s);
      forall j | 0 <= j < |s| - 1
        ensures !PairAt(s[1..], j)
      {
        assert !PairAt(s, j + 1);
      }
      BoldPlain(s[1..]);
      assert s == [s[0]] + s[1..];
    }
  }

  /** `x` can sit between two pairs as the whole of a strong element: no
      "**" inside it, no '*' at its end (which would pair with the closing
      stars first) and no line terminator. */
  predicate Strongable(x: string) {
    NoPair(x) && (|x| == 0 || x[|x| - 1] != '*') && NoTerminator(x)
  }

  /** The closing pair is found right after a strongable `x`: the shortest
      match wins. */
  lemma {:induction false} CloseAfter(x: string, rest: string)
    requires Strongable(x)
    ensures CloseAt(x + "**" + rest) == Some(|x|)
    decreases |x|
  {
    var s := x + "**" + rest;
    if |x| > 0 {
      assert s[0] == x[0];
      if |x| == 1 {
        assert s[1] == '*' && x[0] != '*';
      } else {
        assert s[1] == x[1] && !PairAt(x, 0);
      }
      assert s[1..] == x[1..] + "**" + rest;
      assert Strongable(x[1..]) by {
        forall i | 0 <= i < |x| - 1
          ensures !PairAt(x[1..], i)
        {
          assert !PairAt(x, i + 1);
        }
      }
      CloseAfter(x[1..], rest);
    } else {
      assert s[0] == '*' && s[1] == '*';
    }
  }

  /** A strongable `x` between two pairs becomes one strong element and the
      scan resumes after the closing pair; so `**a*b**` gives
      `<strong>a*b</strong>`. */
  lemma BoldPair(x: string, rest: string)
    requires Strongable(x)
    ensures Bold("**" + x + "**" + rest) == "<strong>" + x + "</strong>" + Bold(rest)
  {
    var s := "**" + x + "**" + rest;
    assert s[0] == '*' && s[1] == '*';
    assert s[2..] == x + "**" + rest;
    CloseAfter(x, rest);
    assert s[2..2 + |x|] == x;
    assert s[4 + |x|..] == rest;
  }

  /** An opening pair with no partner on its line is copied literally. */
  lemma BoldUnclosed(x: string)
    requires NoStar(x)
    ensures Bold("**" + x) == "**" + x
  {
    var t := "**" + x;
    var u := "*" + x;
    assert CloseAt(x).None?;
    assert t[1..] == u;
    assert u[1..] == x;
    assert !PairAt(u, 0);
    BoldPlain(x);
    assert Bold(u) == "*" + x;
    assert t == "*" + u;
  }

  /** A star-free text followed by a lone trailing pair is unchanged. */
  lemma {:induction false} BoldTrailingPair(y: string)
    requires NoStar(y)
    ensures Bold(y + "**") == y + "**"
    decreases |y|
  {
    if |y| == 0 {
      assert y + "**" == "**" + y;
      BoldUnclosed(y);
    } else {
      assert y + "**" == [y[0]] + (y[1..] + "**");
      BoldCons(y[0], y[1..] + "**");
      BoldTrailingPair(y[1..]);
    }
  }

  /** A closing pair is never searched for past the end of the current line. */
  lemma {:induction false} CloseStopsAtLine(t: string, c: char, rest: string)
    requires NoTerminator(t) && IsLineTerminator(c)
    ensures CloseAt(t + [c] + rest) == CloseAt(t)
    decreases |t|
  {
    var s := t + [c] + rest;
    if |t| >= 1 {
      assert s[0] == t[0];
      assert |t| >= 2 ==> s[1] == t[1];
      assert |t| == 1 ==> s[1] == c;
      assert s[1..] == t[1..] + [c] + rest;
      CloseStopsAtLine(t[1..], c, rest);
    } else {
      assert s[0] == c;
    }
  }

  /** A scan step that starts inside a line never looks past its end. */
  lemma BoldStepLine(l: string, c: char, rest: string)
    requires |l| > 0 && NoTerminator(l) && IsLineTerminator(c)
    ensures BoldStep(l + [c] + rest) == BoldStep(l)
    ensures BoldStep(l).used <= |l|
  {
    var s := l + [c] + rest;
    assert s[0] == l[0];
    if |l| == 1 {
      assert s[1] == c;
    } else {
      assert s[1] == l[1];
      assert s[2..] == l[2..] + [c] + rest;
      CloseStopsAtLine(l[2..], c, rest);
      if PairAt(l, 0) && CloseAt(l[2..]).Some? {
        var k := CloseAt(l[2..]).value;
        assert s[2..2 + k] == l[2..2 + k];
      }
    }
  }

  /** The bold step acts on each line separately. */
  lemma {:induction false} BoldLine(l: string, c: char, rest: string)
    requires NoTerminator(l) && IsLineTerminator(c)
    ensures Bold(l + [c] + rest) == Bold(l) + [c] + Bold(rest)
    decreases |l|
  {
    var s := l + [c] + rest;
    if |l| == 0 {
      assert s == [c] + rest;
      BoldCons(c, rest);
    } else {
      BoldStepLine(l, c, rest);
      var u, e := BoldStep(l).used, BoldStep(l).emit;
      assert s[u..] == l[u..] + [c] + rest;
      BoldLine(l[u..], c, rest);
      SplitAt(e, Bold(l[u..]), c, Bold(rest));
    }
  }

  /** Re-association of the pieces around a line terminator. */
  lemma SplitAt(e: string, b: string, c: char, r: string)
    ensures e + (b + [c] + r) == e + b + [c] + r
  {
  }

  /** A pair whose partner lies past a line break is not bold, because `.`
      does not match a line terminator: the text is copied literally. */
  lemma BoldStopsAtLineBreak(x: string, c: char, y: string)
    requires NoStar(x) && NoStar(y) && NoTerminator(x) && IsLineTerminator(c)
    ensures Bold("**" + x + [c] + y + "**") == "**" + x + [c] + y + "**"
  {
    assert NoTerminator("**" + x);
    BoldLine("**" + x, c, y + "**");
    assert "**" + x + [c] + y + "**" == ("**" + x) + [c] + (y + "**");
    BoldUnclosed(x);
    BoldTrailingPair(y);
  }

  // ---------------------------------------------------------------------------
  // Step 2: `/^• (.+)$/gm` -> `<li>$1</li>`
  // ---------------------------------------------------------------------------

  /** Index of the first line terminator of `s`, if any. */
  function FirstTerminator(s: string): (r: Option<nat>)
    ensures r.Some? ==> r.value < |s| && IsLineTerminator(s[r.value])
    ensures r.Some? ==> forall j :: 0 <= j < r.value ==> !IsLineTerminator(s[j])
    ensures r.None? ==> NoTerminator(s)
  {
    if |s| == 0 then None
    else if IsLineTerminator(s[0]) then Some(0)
    else
      match FirstTerminator(s[1..])
      case None => None
      case Some(i) => Some(i + 1)
  }

  /** A line that the bullet rule rewrites: "• " followed by at least one
      character (the line holds no terminator, so `.+` takes the rest). */
  predicate IsBulletLine(line: string) {
    |line| >= 3 && line[0] == '•' && line[1] == ' '
  }

  /** One line through the bullet rule. */
  function BulletLine(line: string): string {
    if IsBulletLine(line) then "<li>" + line[2..] + "</li>" else line
  }

  /** The bullet step: the rule applied to every line, terminators kept. */
  function Bullets(s: string): (r: string)
    ensures |r| >= |s|
    ensures NoTerminator(s) ==> r == BulletLine(s)
    decreases |s|
  {
    match FirstTerminator(s)
    case None => BulletLine(s)
    case Some(i) => BulletLine(s[..i]) + [s[i]] + Bullets(s[i + 1..])
  }

  /** The bullet rule sees each line on its own. */
  lemma BulletsLine(l: string, c: char, rest: string)
    requires NoTerminator(l) && IsLineTerminator(c)
    ensures Bullets(l + [c] + rest) == BulletLine(l) + [c] + Bullets(rest)
  {
    var s := l + [c] + rest;
    assert forall i :: 0 <= i < |l| ==> s[i] == l[i];
    assert s[|l|] == c;
    assert FirstTerminator(s) == Some(|l|);
    assert s[..|l|] == l;
    assert s[|l| + 1..] == rest;
  }

  /** A single line, as the bold and bullet steps render it. */
  function FormatLine(line: string): string {
    BulletLine(Bold(line))
  }

  function FormatLines(lines: seq<string>): (r: seq<string>)
    ensures |r| == |lines|
  {
    if |lines| == 0 then [] else [FormatLine(lines[0])] + FormatLines(lines[1..])
  }

  /** The bold and bullet steps act line by line on "\n"-separated lines. */
  lemma {:induction false} FormatLinesJoin(lines: seq<string>)
    requires forall k :: 0 <= k < |lines| ==> NoTerminator(lines[k])
    ensures Bullets(Bold(Join(lines))) == Join(FormatLines(lines))
  {
    if |lines| == 0 {
      assert Bold("") == "";
      assert FirstTerminator("") == None;
      assert BulletLine("") == "";
    } else if |lines| == 1 {
      BoldKeepsLines(lines[0]);
      assert FormatLines(lines) == [FormatLine(lines[0])];
    } else {
      var l, more := lines[0], lines[1..];
      assert Join(lines) == l + ['\n'] + Join(more);
      BoldLine(l, '\n', Join(more));
      BoldKeepsLines(l);
      BulletsLine(Bold(l), '\n', Bold(Join(more)));
      FormatLinesJoin(more);
      assert FormatLines(lines) == [FormatLine(l)] + FormatLines(more);
      assert FormatLines(lines)[1..] == FormatLines(more);
    }
  }

  /** A bullet line becomes a list item holding its bold-formatted text; the
      bold step never creates or destroys a bullet, so every other line is
      only bold-formatted. */
  lemma FormatLineCases(line: string)
    ensures IsBulletLine(line) ==> FormatLine(line) == "<li>" + Bold(line[2..]) + "</li>"
    ensures !IsBulletLine(line) ==> FormatLine(line) == Bold(line)
  {
    if IsBulletLine(line) {
      FormatBulletLine(line);
    } else if |line| > 0 && line[0] == '•' {
      FormatBulletlessLine(line);
    } else if |line| > 0 {
      BoldHead(line);
    }
  }

  /** The bold step keeps the "• " of a bullet line in front. */
  lemma BoldBullet(line: string)
    requires |line| >= 2 && line[0] == '•' && line[1] == ' '
    ensures Bold(line) == "• " + Bold(line[2..])
  {
    var u := line[1..];
    assert Bold(u) == " " + Bold(line[2..]) by {
      BoldCopy(u);
      assert u[1..] == line[2..];
    }
    BoldCopy(line);
  }

  lemma FormatBulletLine(line: string)
    requires IsBulletLine(line)
    ensures FormatLine(line) == "<li>" + Bold(line[2..]) + "</li>"
  {
    var b := Bold(line[2..]);
    BoldBullet(line);
    assert ("• " + b)[2..] == b;
  }

  /** A line that starts with '•' but is not a bullet line stays one that is
      not after the bold step. */
  lemma FormatBulletlessLine(line: string)
    requires |line| > 0 && line[0] == '•' && !IsBulletLine(line)
    ensures FormatLine(line) == Bold(line)
  {
    if |line| >= 2 && line[1] == ' ' {
      BoldBullet(line);
      assert line[2..] == "";
    } else {
      assert line == ['•'] + line[1..];
      BoldCons('•', line[1..]);
      if |line| > 1 {
        BoldHead(line[1..]);
      }
    }
  }

  // ---------------------------------------------------------------------------
  // Step 3: `/(<li>.*<\/li>\s*)+/g` -> `<ul>$&</ul>`
  // ---------------------------------------------------------------------------

  /** "<li>" starts at index `i` of `s`. */
  predicate OpensItemAt(s: string, i: int) {
    0 <= i && i + 4 <= |s| && s[i] == '<' && s[i + 1] == 'l' && s[i + 2] == 'i' && s[i + 3] == '>'
  }

  /** "</li>" starts at index `i` of `s`. */
  predicate ClosesItemAt(s: string, i: int) {
    0 <= i && i + 5 <= |s| && s[i] == '<' && s[i + 1] == '/' && s[i + 2] == 'l' && s[i + 3] == 'i' && s[i + 4] == '>'
  }

  predicate NoItemOpen(s: string) {
    forall i :: 0 <= i < |s| ==> !OpensItemAt(s, i)
  }

  /** Index of the first line terminator of `s`, or `|s|`. */
  function LineEnd(s: string): (r: nat)
    ensures r <= |s|
    ensures forall j :: 0 <= j < r ==> !IsLineTerminator(s[j])
    ensures r < |s| ==> IsLineTerminator(s[r])
  {
    match FirstTerminator(s)
    case None => |s|
    case Some(i) => i
  }

  /** Start of the last "</li>" lying wholly inside `s[lo..hi]`. */
  function LastClose(s: string, lo: nat, hi: nat): (r: Option<nat>)
    requires hi <= |s|
    ensures r.Some? ==> lo <= r.value && r.value + 5 <= hi && ClosesItemAt(s, r.value)
    decreases hi
  {
    if hi < lo + 5 then None
    else if ClosesItemAt(s, hi - 5) then Some(hi - 5)
    else LastClose(s, lo, hi - 1)
  }

  /** `LastClose` is greedy: no "</li>" inside the window lies after the one
      it returns, and it fails only when the window holds none. */
  lemma {:induction false} LastCloseIsLast(s: string, lo: nat, hi: nat, j: nat)
    requires hi <= |s| && lo <= j && j + 5 <= hi && ClosesItemAt(s, j)
    ensures LastClose(s, lo, hi).Some? && j <= LastClose(s, lo, hi).value
    decreases hi
  {
    if !ClosesItemAt(s, hi - 5) {
      LastCloseIsLast(s, lo, hi - 1, j);
    }
  }

  /** Length matched by `<li>.*<\/li>` at the start of `s`: the greedy `.*`
      stops at the last "</li>" before the first line terminator. */
  function ItemMatch(s: string): (r: Option<nat>)
    ensures r.Some? ==> 9 <= r.value <= |s| && OpensItemAt(s, 0) && ClosesItemAt(s, r.value - 5)
  {
    if !OpensItemAt(s, 0) then None
    else
      match LastClose(s, 4, LineEnd(s))
      case None => None
      case Some(j) => Some(j + 5)
  }

  /** An item match never crosses a line terminator, since `.` stops at one;
      a line that opens an item and has a "</li>" after the opening is matched. */
  lemma ItemMatchOnLine(s: string)
    ensures ItemMatch(s).Some? ==> forall j :: 0 <= j < ItemMatch(s).value ==> !IsLineTerminator(s[j])
    ensures OpensItemAt(s, 0) && (exists j :: 4 <= j && j + 5 <= LineEnd(s) && ClosesItemAt(s, j)) ==>
              ItemMatch(s).Some?
  {
    if OpensItemAt(s, 0) && exists j :: 4 <= j && j + 5 <= LineEnd(s) && ClosesItemAt(s, j) {
      var j :| 4 <= j && j + 5 <= LineEnd(s) && ClosesItemAt(s, j);
      LastCloseIsLast(s, 4, LineEnd(s), j);
    }
  }

  /** Length of the longest prefix of `s` matched by `\s*`. */
  function SpaceRun(s: string): (n: nat)
    ensures n <= |s|
    ensures forall j :: 0 <= j < n ==> IsSpace(s[j])
    ensures n < |s| ==> !IsSpace(s[n])
  {
    if |s| == 0 || !IsSpace(s[0]) then 0 else 1 + SpaceRun(s[1..])
  }

  /** Length matched by `(<li>.*<\/li>\s*)+` at the start of `s`: items, each
      with the whitespace after it, for as long as another item follows. */
  function RunMatch(s: string): (n: nat)
    requires ItemMatch(s).Some?
    ensures 9 <= n <= |s|
    decreases |s|
  {
    var w := ItemEnd(s);
    if ItemMatch(s[w..]).Some? then w + RunMatch(s[w..]) else w
  }

  function ItemEnd(s: string): (w: nat)
    requires ItemMatch(s).Some?
    ensures 9 <= w <= |s|
  {
    var e := ItemMatch(s).value;
    e + SpaceRun(s[e..])
  }

  /** The list step: every run of items is enclosed in one `<ul>...</ul>`. */
  function Wrap(s: string): (r: string)
    ensures |r| >= |s|
    decreases |s|
  {
    if |s| == 0 then ""
    else if ItemMatch(s).Some? then
      var n := RunMatch(s);
      "<ul>" + s[..n] + "</ul>" + Wrap(s[n..])
    else [s[0]] + Wrap(s[1..])
  }

  /** A character at which no item opens is copied and the scan moves on. */
  lemma WrapCopy(s: string)
    requires |s| > 0 && !OpensItemAt(s, 0)
    ensures Wrap(s) == [s[0]] + Wrap(s[1..])
  {
  }

  /** Text in which no item opens passes through the list step unchanged. */
  lemma {:induction false} WrapPlain(s: string)
    requires NoItemOpen(s)
    ensures Wrap(s) == s
    decreases |s|
  {
    if |s| > 0 {
      WrapCopy(s);
      forall j | 0 <= j < |s| - 1
        ensures !OpensItemAt(s[1..], j)
      {
        assert !OpensItemAt(s, j + 1);
      }
      WrapPlain(s[1..]);
      assert s == [s[0]] + s[1..];
    }
  }

  /** A whole line produced by the bullet rule: opens with "<li>", closes with
      "</li>" and holds no line terminator. */
  predicate IsItem(x: string) {
    |x| >= 9 && OpensItemAt(x, 0) && ClosesItemAt(x, |x| - 5) && NoTerminator(x)
  }

  /** Every bullet line of one line becomes an item. */
  lemma BulletIsItem(line: string)
    requires IsBulletLine(line) && NoTerminator(line)
    ensures IsItem(BulletLine(line))
  {
    var x := BulletLine(line);
    var t := line[2..];
    assert x == "<li>" + t + "</li>";
    assert forall k :: 0 <= k < |t| ==> x[k + 4] == t[k];
    assert x[|x| - 5..] == "</li>";
  }

  /** One item of a run and the whitespace that follows it. */
  datatype RunPart = RunPart(item: string, gap: string)

  function RunText(parts: seq<RunPart>): string {
    if |parts| == 0 then "" else parts[0].item + parts[0].gap + RunText(parts[1..])
  }

  /** The whitespace after an item starts on a new line, or ends the text. */
  predicate GapOk(gap: string, after: string) {
    AllSpace(gap) && (gap == "" ==> after == "") && (gap != "" ==> IsLineTerminator(gap[0]))
  }

  /** `parts` form a maximal whitespace-separated run of items before `rest`:
      only the last gap may be empty, `rest` does not start with whitespace
      and no item matches at its start. */
  predicate MaximalRun(parts: seq<RunPart>, rest: string) {
    && |parts| > 0
    && (forall k :: 0 <= k < |parts| ==> IsItem(parts[k].item))
    && (forall k :: 0 <= k < |parts| ==> GapOk(parts[k].gap, RunText(parts[k + 1..]) + rest))
    && (rest == "" || !IsSpace(rest[0]))
    && ItemMatch(rest).None?
  }

  /** An item that ends its line is matched up to its own "</li>". */
  lemma ItemMatchOfItem(x: string, g: string, t: string)
    requires IsItem(x) && (g == "" ==> t == "") && (g != "" ==> IsLineTerminator(g[0]))
    ensures ItemMatch(x + g + t) == Some(|x|)
  {
    var s := x + g + t;
    assert forall i :: 0 <= i < |x| ==> s[i] == x[i];
    assert |x| < |s| ==> s[|x|] == g[0];
    assert LineEnd(s) == |x|;
    assert ClosesItemAt(s, |x| - 5);
  }

  /** `\s*` after an item takes exactly the gap. */
  lemma SpaceRunOfGap(g: string, t: string)
    requires AllSpace(g) && (t == "" || !IsSpace(t[0]))
    ensures SpaceRun(g + t) == |g|
  {
    var s := g + t;
    assert forall i :: 0 <= i < |g| ==> s[i] == g[i];
    assert |g| < |s| ==> s[|g|] == t[0];
  }

  /** One iteration of the group: an item, its gap, and whatever follows. */
  lemma RunMatchStep(x: string, g: string, t: string)
    requires IsItem(x) && GapOk(g, t) && (t == "" || !IsSpace(t[0]))
    ensures ItemMatch(x + g + t) == Some(|x|)
    ensures ItemMatch(t).Some? ==> RunMatch(x + g + t) == |x| + |g| + RunMatch(t)
    ensures ItemMatch(t).None? ==> RunMatch(x + g + t) == |x| + |g|
  {
    var s := x + g + t;
    ItemMatchOfItem(x, g, t);
    ItemEndOfItem(x, g, t);
    RunMatchAt(s, |x| + |g|);
    assert s[|x| + |g|..] == t;
  }

  /** The item and its gap make up one iteration of the group. */
  lemma ItemEndOfItem(x: string, g: string, t: string)
    requires ItemMatch(x + g + t) == Some(|x|) && AllSpace(g) && (t == "" || !IsSpace(t[0]))
    ensures ItemEnd(x + g + t) == |x| + |g|
  {
    var s := x + g + t;
    assert s[|x|..] == g + t;
    SpaceRunOfGap(g, t);
  }

  /** `RunMatch` after one iteration of length `w`. */
  lemma RunMatchAt(s: string, w: nat)
    requires ItemMatch(s).Some? && ItemEnd(s) == w
    ensures ItemMatch(s[w..]).Some? ==> RunMatch(s) == w + RunMatch(s[w..])
    ensures ItemMatch(s[w..]).None? ==> RunMatch(s) == w
  {
  }

  /** The parts after the first still form a maximal run before `rest`. */
  lemma MaximalRunTail(parts: seq<RunPart>, rest: string)
    requires MaximalRun(parts, rest) && |parts| > 1
    ensures MaximalRun(parts[1..], rest)
  {
    var more := parts[1..];
    forall k | 0 <= k < |more|
      ensures IsItem(more[k].item) && GapOk(more[k].gap, RunText(more[k + 1..]) + rest)
    {
      assert more[k] == parts[k + 1];
      assert more[k + 1..] == parts[k + 2..];
    }
  }

  /** The text of a non-empty run opens with '<'. */
  lemma RunTextOpens(parts: seq<RunPart>, rest: string)
    requires |parts| > 0 && IsItem(parts[0].item)
    ensures |RunText(parts) + rest| > 0 && (RunText(parts) + rest)[0] == '<'
  {
    var x := parts[0].item;
    assert (RunText(parts) + rest)[0] == x[0];
  }

  lemma {:induction false} RunMatchParts(parts: seq<RunPart>, rest: string)
    requires MaximalRun(parts, rest)
    ensures ItemMatch(RunText(parts) + rest).Some?
    ensures RunMatch(RunText(parts) + rest) == |RunText(parts)|
    decreases |parts|
  {
    var x, g, more := parts[0].item, parts[0].gap, parts[1..];
    var t := RunText(more) + rest;
    assert RunText(parts) + rest == x + g + t;
    assert IsItem(x) && GapOk(g, t);
    if |more| > 0 {
      assert t[0] == '<' && ItemMatch(t).Some? && RunMatch(t) == |RunText(more)| by {
        RunTextOpens(more, rest);
        MaximalRunTail(parts, rest);
        RunMatchParts(more, rest);
      }
    } else {
      assert t == rest;
    }
    RunMatchStep(x, g, t);
  }

  /** Each maximal whitespace-separated run of items receives exactly one
      enclosing `<ul>...</ul>`, and the scan resumes right after it. */
  lemma WrapRun(parts: seq<RunPart>, rest: string)
    requires MaximalRun(parts, rest)
    ensures Wrap(RunText(parts) + rest) == "<ul>" + RunText(parts) + "</ul>" + Wrap(rest)
  {
    var s := RunText(parts) + rest;
    RunMatchParts(parts, rest);
    assert s[..|RunText(parts)|] == RunText(parts);
    assert s[|RunText(parts)|..] == rest;
  }

  // ---------------------------------------------------------------------------
  // Steps 4 and 5: `/\n\n/g` -> `<br><br>`, then `/\n/g` -> `<br>`
  // ---------------------------------------------------------------------------

  function PairBreaks(s: string): string
    decreases |s|
  {
    if |s| == 0 then ""
    else if |s| >= 2 && s[0] == '\n' && s[1] == '\n' then "<br><br>" + PairBreaks(s[2..])
    else [s[0]] + PairBreaks(s[1..])
  }

  /** Every "\n" becomes "<br>": the output has no "\n" and is three characters
      longer per replaced newline. */
  function SingleBreaks(s: string): (r: string)
    ensures '\n' !in r
    ensures |r| == |s| + 3 * Count(s, '\n')
    decreases |s|
  {
    if |s| == 0 then ""
    else (if s[0] == '\n' then "<br>" else [s[0]]) + SingleBreaks(s[1..])
  }

  lemma {:induction false} SingleBreaksAppend(a: string, b: string)
    ensures SingleBreaks(a + b) == SingleBreaks(a) + SingleBreaks(b)
    decreases |a|
  {
    if |a| > 0 {
      assert (a + b)[1..] == a[1..] + b;
      SingleBreaksAppend(a[1..], b);
    } else {
      assert a + b == b;
    }
  }

  lemma {:induction false} SingleBreaksPlain(s: string)
    requires '\n' !in s
    ensures SingleBreaks(s) == s
    decreases |s|
  {
    if |s| > 0 {
      assert s[0] in s;
      assert forall c :: c in s[1..] ==> c in s;
      SingleBreaksPlain(s[1..]);
    }
  }

  lemma BreakTagsPlain()
    ensures SingleBreaks("<br><br>") == "<br><br>"
  {
    var b := "<br><br>";
    assert forall i :: 0 <= i < |b| ==> b[i] != '\n';
    SingleBreaksPlain(b);
  }

  lemma BreakTags(r: string)
    ensures "<br>" + ("<br>" + r) == "<br><br>" + r
  {
  }

  /** How the single pass treats a leading "\n\n". */
  lemma SingleBreaksOfPair(s: string)
    requires |s| >= 2 && s[0] == '\n' && s[1] == '\n'
    ensures SingleBreaks(s) == "<br><br>" + SingleBreaks(s[2..])
  {
    assert SingleBreaks(s) == "<br>" + SingleBreaks(s[1..]);
    assert s[1..][1..] == s[2..];
    assert SingleBreaks(s[1..]) == "<br>" + SingleBreaks(s[2..]);
    BreakTags(SingleBreaks(s[2..]));
  }

  /** How both break passes treat a leading "\n\n". */
  lemma BreaksOfPair(s: string)
    requires |s| >= 2 && s[0] == '\n' && s[1] == '\n'
    ensures SingleBreaks(PairBreaks(s)) == "<br><br>" + SingleBreaks(PairBreaks(s[2..]))
    ensures SingleBreaks(s) == "<br><br>" + SingleBreaks(s[2..])
  {
    assert PairBreaks(s) == "<br><br>" + PairBreaks(s[2..]);
    SingleBreaksAppend("<br><br>", PairBreaks(s[2..]));
    BreakTagsPlain();
    SingleBreaksOfPair(s);
  }

  /** How both break passes treat any other leading character. */
  lemma BreaksOfOther(s: string)
    requires |s| > 0 && !(|s| >= 2 && s[0] == '\n' && s[1] == '\n')
    ensures SingleBreaks(PairBreaks(s)) == SingleBreaks([s[0]]) + SingleBreaks(PairBreaks(s[1..]))
    ensures SingleBreaks(s) == SingleBreaks([s[0]]) + SingleBreaks(s[1..])
  {
    SingleBreaksAppend([s[0]], PairBreaks(s[1..]));
    SingleBreaksAppend([s[0]], s[1..]);
    assert s == [s[0]] + s[1..];
  }

  /** The "\n\n" pass is subsumed by the "\n" pass: the two passes together
      replace every newline by exactly one "<br>". */
  lemma {:induction false} PairBreaksRedundant(s: string)
    ensures SingleBreaks(PairBreaks(s)) == SingleBreaks(s)
    decreases |s|
  {
    if |s| >= 2 && s[0] == '\n' && s[1] == '\n' {
      BreaksOfPair(s);
      PairBreaksRedundant(s[2..]);
    } else if |s| > 0 {
      BreaksOfOther(s);
      PairBreaksRedundant(s[1..]);
    }
  }

  // ---------------------------------------------------------------------------
  // The whole formatter
  // ---------------------------------------------------------------------------

  /** `formatMessage`: the five replacements in source order. The result is
      injected as HTML without escaping. */
  function FormatMessage(content: string): (r: string)
    ensures '\n' !in r
  {
    SingleBreaks(PairBreaks(Wrap(Bullets(Bold(content)))))
  }

  /** The output equals the list step's output with each newline replaced by
      one "<br>", so it has exactly three more characters per newline. */
  lemma FormatMessageBreaks(content: string)
    ensures FormatMessage(content) == SingleBreaks(Wrap(Bullets(Bold(content))))
    ensures |FormatMessage(content)| == |Wrap(Bullets(Bold(content)))| + 3 * Count(Wrap(Bullets(Bold(content))), '\n')
  {
    PairBreaksRedundant(Wrap(Bullets(Bold(content))));
  }

  /** Single-line text with no "**", no "<li>" and no leading bullet is
      returned unchanged; in particular '<' and '>' are not escaped. */
  lemma FormatMessagePlain(content: string)
    requires NoPair(content) && NoTerminator(content) && NoItemOpen(content)
    requires !IsBulletLine(content)
    ensures FormatMessage(content) == content
  {
    BoldPlain(content);
    assert FirstTerminator(content) == None;
    WrapPlain(content);
    PairBreaksRedundant(content);
    assert '\n' !in content by {
      assert forall i :: 0 <= i < |content| ==> content[i] != '\n';
    }
    SingleBreaksPlain(content);
  }
}
