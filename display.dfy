/**
 * The rows of the email list (`CustomListWidgetItem`) and the search test that
 * `search_emails` applies to them.
 */
module Display {
  import opened Fetcher

  /** One row of the email list: the emitted values, and whether the row is hidden. */
  datatype Item = Item(account: string, sender: string, subject: string, date: string, snippet: string, hidden: bool)
  {
    /** The text the row displays: sender, subject, date and snippet on four lines. */
    function Text(): string
    {
      sender + "\n" + subject + "\n" + date + "\n" + snippet
    }
  }

  /** The row `add_email_to_list` builds from one emission; a new row is visible. */
  function NewItem(s: Summary): Item
  {
    Item(s.account, s.sender, s.subject, s.date, s.snippet, false)
  }

  /** The rows for a run of emissions, in emission order. */
  function Items(ss: seq<Summary>): seq<Item>
  {
    seq(|ss|, i requires 0 <= i < |ss| => NewItem(ss[i]))
  }

  lemma ItemsAppend(a: seq<Summary>, b: seq<Summary>)
    ensures Items(a + b) == Items(a) + Items(b)
  {
  }

  /** The text up to the first line break, and the text after it. */
  function SplitLine(s: string): (string, string)
  {
    if s == [] then ([], [])
    else if s[0] == '\n' then ([], s[1..])
    else var (line, rest) := SplitLine(s[1..]); ([s[0]] + line, rest)
  }

  /** The four fields a row's text is made of, read back line by line. */
  function Fields(text: string): (string, string, string, string)
  {
    var (sender, r1) := SplitLine(text);
    var (subject, r2) := SplitLine(r1);
    var (date, snippet) := SplitLine(r2);
    (sender, subject, date, snippet)
  }

  lemma {:induction false} SplitLineAt(line: string, rest: string)
    requires '\n' !in line
    ensures SplitLine(line + "\n" + rest) == (line, rest)
  {
    if line != [] {
      var whole := line + "\n" + rest;
      assert whole[0] == line[0] != '\n';
      assert whole[1..] == line[1..] + "\n" + rest;
      SplitLineAt(line[1..], rest);
      assert [line[0]] + line[1..] == line;
    } else {
      assert line + "\n" + rest == "\n" + rest;
    }
  }

  /**
   * A row's text determines its four fields as long as sender, subject and date
   * hold no line break (the snippet may hold any).
   */
  lemma TextRoundTrip(item: Item)
    requires '\n' !in item.sender && '\n' !in item.subject && '\n' !in item.date
    ensures Fields(item.Text()) == (item.sender, item.subject, item.date, item.snippet)
  {
    var tail2 := item.date + "\n" + item.snippet;
    var tail1 := item.subject + "\n" + tail2;
    assert item.Text() == item.sender + "\n" + tail1;
    SplitLineAt(item.sender, tail1);
    SplitLineAt(item.subject, tail2);
    SplitLineAt(item.date, item.snippet);
  }

  /** Two rows with the same text show the same fields. */
  lemma TextInjective(a: Item, b: Item)
    requires '\n' !in a.sender && '\n' !in a.subject && '\n' !in a.date
    requires '\n' !in b.sender && '\n' !in b.subject && '\n' !in b.date
    requires a.Text() == b.Text()
    ensures a.sender == b.sender && a.subject == b.subject && a.date == b.date && a.snippet == b.snippet
  {
    TextRoundTrip(a);
    TextRoundTrip(b);
  }

  /** `str.lower()` on one character, over ASCII. */
  function LowerChar(c: char): char
  {
    if 'A' <= c <= 'Z' then (c as int + 32) as char else c
  }

  /** `str.lower()`, over ASCII. */
  function Lower(s: string): string
  {
    seq(|s|, i requires 0 <= i < |s| => LowerChar(s[i]))
  }

  /** q occurs in t starting at position k. */
  ghost predicate OccursAt(q: string, t: string, k: int)
  {
    0 <= k && k + |q| <= |t| && t[k..k + |q|] == q
  }

  /** Python's `q in t` on strings: q is a substring of t. */
  function Contains(t: string, q: string): (r: bool)
    ensures r <==> exists k :: OccursAt(q, t, k)
  {
    if q <= t then
      assert OccursAt(q, t, 0);
      true
    else if t == [] then false
    else
      assert forall k | OccursAt(q, t[1..], k) :: OccursAt(q, t, k + 1);
      assert forall k | OccursAt(q, t, k) :: k > 0 && OccursAt(q, t[1..], k - 1);
      Contains(t[1..], q)
  }

  /** The search test of `search_emails`: the lowered query occurs in the lowered text. */
  predicate Matches(item: Item, query: string)
  {
    Contains(Lower(item.Text()), Lower(query))
  }

  /** An empty query matches every row. */
  lemma EmptyQueryMatches(item: Item)
    ensures Matches(item, "")
  {
    assert OccursAt(Lower(""), Lower(item.Text()), 0);
  }

  /** A query found with its exact case is also found by the case-insensitive test. */
  lemma ExactOccurrenceMatches(item: Item, query: string)
    requires Contains(item.Text(), query)
    ensures Matches(item, query)
  {
    var t := item.Text();
    var k :| OccursAt(query, t, k);
    assert Lower(t)[k..k + |query|] == Lower(query);
    assert OccursAt(Lower(query), Lower(t), k);
  }

  lemma LowerIdempotent(s: string)
    ensures Lower(Lower(s)) == Lower(s)
  {
  }

  /** Lowering the query first does not change which rows match. */
  lemma QueryCaseIrrelevant(item: Item, query: string)
    ensures Matches(item, Lower(query)) == Matches(item, query)
  {
    LowerIdempotent(query);
  }
}
