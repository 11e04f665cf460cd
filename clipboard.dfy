/** The text `copyItem` writes to the clipboard: a header line carrying the
    export time, then one numbered line per list entry.  The time is an
    input (`stamp`, the text of `${new Date()}`). */
module Clipboard {
  import opened Items
  import opened Text

  /** The few JavaScript values the line template handles, with the
      truthiness `&&` and `||` test and the text `${v}` produces. */
  datatype JsValue = Null | Bool(b: bool) | Str(s: string)

  function Truthy(v: JsValue): bool
  {
    match v
    case Null => false
    case Bool(b) => b
    case Str(s) => s != ""
  }

  /** `a && b` */
  function And(a: JsValue, b: JsValue): JsValue
  {
    if Truthy(a) then b else a
  }

  /** `a || b` */
  function Or(a: JsValue, b: JsValue): JsValue
  {
    if Truthy(a) then a else b
  }

  /** `${v}` */
  function Render(v: JsValue): string
  {
    match v
    case Null => "null"
    case Bool(b) => if b then "true" else "false"
    case Str(s) => s
  }

  /** `(priority === 2 && "IMPORTANT") || (priority >= 3 && "URGENT")`,
      rendered: a priority below 2 yields the text "false". */
  function Label(priority: int): (r: string)
    ensures priority == 2 ==> r == "IMPORTANT"
    ensures priority >= 3 ==> r == "URGENT"
    ensures priority < 2 ==> r == "false"
  {
    Render(Or(And(Bool(priority == 2), Str("IMPORTANT")), And(Bool(priority >= 3), Str("URGENT"))))
  }

  function DetailsValue(d: Option<string>): JsValue
  {
    match d
    case None => Null
    case Some(s) => Str(s)
  }

  /** What follows "({quantity}) " on a line:
      `${description && `- ${description} [${label}]`}`. */
  function Suffix(x: ShoppingListItem): (r: string)
    ensures x.details == None ==> r == "null"
    ensures x.details == Some("") ==> r == ""
    ensures x.details.Some? && x.details.value != "" ==>
      r == "- " + x.details.value + " [" + Label(x.priority) + "]"
  {
    var description := DetailsValue(x.details);
    Render(And(description, Str("- " + Render(description) + " [" + Label(x.priority) + "]")))
  }

  /** The line for entry `x` at 1-based position `n`:
      `${index + 1}. ${itemname} (${quantity}) ${...}`. */
  function Line(n: nat, x: ShoppingListItem): string
  {
    IntStr(n) + ". " + Entry(x)
  }

  /** The part of a line after its number. */
  function Entry(x: ShoppingListItem): string
  {
    x.item + " (" + IntStr(x.quantity) + ") " + Suffix(x)
  }

  /** `shoppingList.map((item, index) => ...)`. */
  function Lines(items: seq<ShoppingListItem>): (ls: seq<string>)
    ensures |ls| == |items|
  {
    seq(|items|, k requires 0 <= k < |items| => Line(k + 1, items[k]))
  }

  function HeaderLine(stamp: string): string
  {
    "The Shopping List as of " + stamp + ":"
  }

  /** The clipboard text, or None when the list is empty and `copyItem`
      returns before writing anything. */
  function Export(items: seq<ShoppingListItem>, stamp: string): (r: Option<string>)
    ensures r.None? <==> items == []
  {
    if |items| == 0 then None
    else Some(HeaderLine(stamp) + "\n" + JoinLines(Lines(items)))
  }

  // ---- line numbers ----

  /** The number a line starts with, when it starts with digits and ". ". */
  function LineNumber(line: string): Option<int>
  {
    var d := LeadingDigits(line);
    if |d| > 0 && |line| >= |d| + 2 && line[|d|..|d| + 2] == ". " then Some(DigitsValue(d)) else None
  }

  /** Line k (0-based) of the export carries the number k + 1. */
  lemma LinesNumbered(items: seq<ShoppingListItem>, k: nat)
    requires k < |items|
    ensures LineNumber(Lines(items)[k]) == Some(k + 1)
  {
    var d := NatStr(k + 1);
    var t := ". " + Entry(items[k]);
    var l := Lines(items)[k];
    assert l == d + t;
    LeadingDigitsOf(d, t);
    assert l[|d|..|d| + 2] == ". ";
    NatStrRoundTrip(k + 1);
  }

  // ---- line structure ----

  predicate SingleLineFields(x: ShoppingListItem)
  {
    NoNewline(x.item) && (x.details.Some? ==> NoNewline(x.details.value))
  }

  lemma NoNewlineConcat(a: string, b: string)
    requires NoNewline(a) && NoNewline(b)
    ensures NoNewline(a + b)
  {
    forall i | 0 <= i < |a + b| ensures (a + b)[i] != '\n' {
      if i >= |a| {
        assert (a + b)[i] == b[i - |a|];
      }
    }
  }

  lemma DigitsNoNewline(s: string)
    requires AllDigits(s)
    ensures NoNewline(s)
  {
    forall i | 0 <= i < |s| ensures s[i] != '\n' {
      assert IsDigit(s[i]);
    }
  }

  lemma IntStrNoNewline(i: int)
    ensures NoNewline(IntStr(i))
  {
    if i < 0 {
      DigitsNoNewline(NatStr(-i));
      NoNewlineConcat("-", NatStr(-i));
    } else {
      DigitsNoNewline(NatStr(i));
    }
  }

  lemma SuffixNoNewline(x: ShoppingListItem)
    requires SingleLineFields(x)
    ensures NoNewline(Suffix(x))
  {
    if x.details.Some? && x.details.value != "" {
      var d := x.details.value;
      var lab := Label(x.priority);
      assert NoNewline(lab);
      NoNewlineConcat("- ", d);
      NoNewlineConcat("- " + d, " [");
      NoNewlineConcat("- " + d + " [", lab);
      NoNewlineConcat("- " + d + " [" + lab, "]");
    }
  }

  lemma LineNoNewline(n: nat, x: ShoppingListItem)
    requires SingleLineFields(x)
    ensures NoNewline(Line(n, x))
  {
    IntStrNoNewline(n);
    IntStrNoNewline(x.quantity);
    SuffixNoNewline(x);
    var q := IntStr(x.quantity);
    NoNewlineConcat(x.item, " (");
    NoNewlineConcat(x.item + " (", q);
    NoNewlineConcat(x.item + " (" + q, ") ");
    NoNewlineConcat(x.item + " (" + q + ") ", Suffix(x));
    NoNewlineConcat(IntStr(n), ". ");
    NoNewlineConcat(IntStr(n) + ". ", Entry(x));
  }

  /** When the time stamp, the names and the details hold no newline, the
      export splits into the header followed by exactly one line per entry,
      in list order. */
  lemma ExportLines(items: seq<ShoppingListItem>, stamp: string)
    requires items != [] && NoNewline(stamp)
    requires forall k | 0 <= k < |items| :: SingleLineFields(items[k])
    ensures SplitLines(Export(items, stamp).value) == [HeaderLine(stamp)] + Lines(items)
  {
    var ls := Lines(items);
    forall k | 0 <= k < |ls| ensures NoNewline(ls[k]) {
      LineNoNewline(k + 1, items[k]);
    }
    assert NoNewline(HeaderLine(stamp));
    SplitCons(HeaderLine(stamp), JoinLines(ls));
    SplitJoin(ls);
  }

  /** Every line ends in a space (empty details), in "null" or in "]", so
      the export never ends with a newline. */
  lemma LineLast(n: nat, x: ShoppingListItem)
    ensures var l := Line(n, x); |l| > 0 && l[|l| - 1] in {' ', 'l', ']'}
  {
  }

  lemma ExportNoTrailingNewline(items: seq<ShoppingListItem>, stamp: string)
    requires items != []
    ensures var t := Export(items, stamp).value; |t| > 0 && t[|t| - 1] != '\n'
  {
    var ls := Lines(items);
    var l := ls[|ls| - 1];
    assert l == Line(|items|, items[|items| - 1]);
    LineLast(|items|, items[|items| - 1]);
    JoinLinesEnd(ls);
    var a := HeaderLine(stamp) + "\n";
    var j := JoinLines(ls);
    assert Export(items, stamp).value == a + j;
    assert (a + j)[|a + j| - 1] == j[|j| - 1];
  }

  // ---- the rendering quirks, on concrete entries ----

  /** Null details render as "null" after the quantity. */
  lemma NullDetailsLine()
    ensures Line(1, ShoppingListItem(1, 1, "milk", 2, None, "d", "u")) == "1. milk (2) null"
  {
    assert IntStr(1) == "1";
    assert IntStr(2) == "2";
  }

  /** Empty details leave the space after the quantity at the end. */
  lemma EmptyDetailsLine()
    ensures Line(3, ShoppingListItem(7, 3, "eggs", 12, Some(""), "d", "u")) == "3. eggs (12) "
  {
    assert IntStr(3) == "3";
    assert NatStr(12) == NatStr(1) + "2";
    assert IntStr(12) == "12";
  }

  /** Priority 2 with details: "[IMPORTANT]". */
  lemma ImportantSuffix()
    ensures Suffix(ShoppingListItem(2, 2, "bread", 1, Some("whole grain"), "d", "u"))
         == "- whole grain [IMPORTANT]"
  {
    assert Label(2) == "IMPORTANT";
  }

  /** Priority 1 with details renders the label as the text "false". */
  lemma DefaultPrioritySuffix()
    ensures Suffix(ShoppingListItem(5, 1, "tea", 1, Some("green"), "d", "u")) == "- green [false]"
  {
    assert Label(1) == "false";
  }

  /** Priority 3 or more with details: "[URGENT]". */
  lemma UrgentSuffix()
    ensures Suffix(ShoppingListItem(9, 3, "soap", 1, Some("any"), "d", "u")) == "- any [URGENT]"
  {
    assert Label(3) == "URGENT";
  }
}
