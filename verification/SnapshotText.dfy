/** formatSnapshot: the largest prefix of the element lines that fits a character budget. */
module SnapshotText {
  import opened Option
  import opened Text

  /** A page snapshot; banners and element lines come already rendered. */
  datatype Snapshot = Snapshot(
    title: string,
    url: string,
    overlay: Option<string>,
    otherTabs: Option<string>,
    warning: Option<string>,
    elements: seq<string>,
    alerts: seq<string>,
    deltaFallback: bool,
    id: nat)

  function Optional(line: Option<string>): seq<string> {
    if line.Some? then [line.value] else []
  }

  const WARNING_SIGN := "\U{26A0}\U{FE0F}"

  function Prefix(r: Snapshot): (lines: seq<string>) {
    ["page: " + r.title + " \U{2014} " + r.url]
    + Optional(r.overlay) + Optional(r.otherTabs) + Optional(r.warning)
  }

  function Quoted(xs: seq<string>): seq<string> {
    seq(|xs|, i requires 0 <= i < |xs| => "\"" + xs[i] + "\"")
  }

  function AlertLine(alerts: seq<string>): string {
    WARNING_SIGN + " " + Dec(|alerts|) + " alert(s): " + Join(Quoted(alerts), ", ")
  }

  function Suffix(r: Snapshot): (lines: seq<string>)
    ensures lines != []
  {
    (if r.alerts != [] then [AlertLine(r.alerts)] else [])
    + (if r.deltaFallback then ["(full snapshot \U{2014} page navigated)"] else [])
    + ["snapshot_id: " + Dec(r.id)]
  }

  const ADVICE :=
    " elements \U{2014} try viewport_only:true first (scope:{css} only reaches the top-level page, not iframe content; "
    + "scope:{ref} needs a ref from a read that wasn't truncated)"

  function Notice(shown: nat, total: nat): string {
    WARNING_SIGN + " showing " + Dec(shown) + " of " + Dec(total) + ADVICE
  }

  function Full(r: Snapshot): string {
    Join(Prefix(r) + r.elements + Suffix(r), "\n")
  }

  /** The text that shows the first k elements and says so. */
  function Truncated(r: Snapshot, k: nat): string
    requires k <= |r.elements|
  {
    Join(Prefix(r) + r.elements[..k] + [Notice(k, |r.elements|)] + Suffix(r), "\n")
  }

  // ----- Lengths -----

  function TotalLength(lines: seq<string>): nat {
    if lines == [] then 0 else |lines[0]| + TotalLength(lines[1..])
  }

  lemma {:induction false} JoinLength(lines: seq<string>)
    requires lines != []
    ensures |Join(lines, "\n")| == TotalLength(lines) + |lines| - 1
  {
    if |lines| > 1 {
      JoinLength(lines[1..]);
    }
  }

  lemma {:induction false} TotalLengthAppend(xs: seq<string>, ys: seq<string>)
    ensures TotalLength(xs + ys) == TotalLength(xs) + TotalLength(ys)
  {
    if xs == [] {
      assert xs + ys == ys;
    } else {
      assert (xs + ys)[1..] == xs[1..] + ys;
      TotalLengthAppend(xs[1..], ys);
    }
  }

  lemma FullLength(r: Snapshot)
    ensures |Full(r)| == TotalLength(Prefix(r)) + TotalLength(r.elements) + TotalLength(Suffix(r))
                         + |Prefix(r)| + |r.elements| + |Suffix(r)| - 1
  {
    JoinLength(Prefix(r) + r.elements + Suffix(r));
    TotalLengthAppend(Prefix(r) + r.elements, Suffix(r));
    TotalLengthAppend(Prefix(r), r.elements);
  }

  lemma FourParts(a: seq<string>, b: seq<string>, c: seq<string>, d: seq<string>)
    requires d != []
    ensures |Join(a + b + c + d, "\n")|
            == TotalLength(a) + TotalLength(b) + TotalLength(c) + TotalLength(d) + |a| + |b| + |c| + |d| - 1
  {
    JoinLength(a + b + c + d);
    TotalLengthAppend(a + b + c, d);
    TotalLengthAppend(a + b, c);
    TotalLengthAppend(a, b);
  }

  lemma TruncatedLength(r: Snapshot, k: nat)
    requires k <= |r.elements|
    ensures |Truncated(r, k)| == TotalLength(Prefix(r)) + TotalLength(r.elements[..k])
                                 + |Notice(k, |r.elements|)| + TotalLength(Suffix(r))
                                 + |Prefix(r)| + k + |Suffix(r)|
  {
    FourParts(Prefix(r), r.elements[..k], [Notice(k, |r.elements|)], Suffix(r));
    assert TotalLength([Notice(k, |r.elements|)]) == |Notice(k, |r.elements|)|;
  }

  /** Each further element makes the text strictly longer, the digits of the count included. */
  lemma LengthStrictlyIncreases(r: Snapshot, j: nat, k: nat)
    requires j < k <= |r.elements|
    ensures |Truncated(r, j)| < |Truncated(r, k)|
  {
    TruncatedLength(r, j);
    TruncatedLength(r, k);
    DecLengthMonotone(j, k);
    assert r.elements[..k] == r.elements[..j] + r.elements[j..k];
    TotalLengthAppend(r.elements[..j], r.elements[j..k]);
  }

  /** Showing every element with the notice is longer than showing every element without it. */
  lemma NoticeCosts(r: Snapshot)
    ensures |Full(r)| < |Truncated(r, |r.elements|)|
  {
    FullLength(r);
    TruncatedLength(r, |r.elements|);
    assert r.elements[..|r.elements|] == r.elements;
  }

  // ----- The search -----

  predicate Fits(r: Snapshot, budget: int, k: nat)
    requires k <= |r.elements|
  {
    |Truncated(r, k)| <= budget
  }

  /** k elements are shown: they fit (or there are none), and no larger prefix fits. */
  ghost predicate LargestPrefix(r: Snapshot, budget: int, k: nat) {
    && k < |r.elements|
    && (k == 0 || Fits(r, budget, k))
    && forall j :: k < j <= |r.elements| ==> !Fits(r, budget, j)
  }

  method FormatSnapshot(r: Snapshot, budget: int) returns (text: string)
    ensures r.elements == [] || |Full(r)| <= budget ==> text == Full(r)
    ensures r.elements != [] && |Full(r)| > budget ==>
              exists k :: LargestPrefix(r, budget, k) && text == Truncated(r, k)
    ensures |text| <= budget <==>
            |Full(r)| <= budget || (r.elements != [] && Fits(r, budget, 0))
  {
    var total := |r.elements|;
    var fullText := Full(r);
    if total == 0 || |fullText| <= budget {
      return fullText;
    }
    NoticeCosts(r);
    var low, high := 0, total;
    while low < high
      invariant 0 <= low <= high <= total
      invariant low == 0 || Fits(r, budget, low)
      invariant forall j :: high < j <= total ==> !Fits(r, budget, j)
    {
      var mid := (low + high + 1) / 2;
      if |Truncated(r, mid)| <= budget {
        low := mid;
      } else {
        forall j | mid < j <= total
          ensures !Fits(r, budget, j)
        {
          LengthStrictlyIncreases(r, mid, j);
        }
        high := mid - 1;
      }
    }
    if low == total {
      // The fallback to the full text: a notice cannot fit where the full text did not.
      assert false;
    }
    text := Truncated(r, low);
    assert LargestPrefix(r, budget, low);
    if low > 0 {
      LengthStrictlyIncreases(r, 0, low);
    }
  }
}
