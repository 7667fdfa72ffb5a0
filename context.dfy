/** The context text of `runAgent` in agent.js: every search result is
    rendered as `[${c.metadata.year}] ${c.content}` and the renderings are
    joined with a blank line between them. */
module Context {
  import opened Records
  import opened Years
  import opened Retriever

  function DigitChar(d: nat): (c: char)
    requires d < 10
    ensures IsDigit(c) && DigitValue(c) == d
  {
    ('0' as int + d) as char
  }

  /** JavaScript's decimal rendering of a non-negative integer. */
  function NatToString(n: nat): (s: string)
    ensures |s| > 0 && AllDigits(s)
    ensures DecimalValue(s) == n
    ensures s[0] == '0' ==> s == "0"
  {
    if n < 10 then [DigitChar(n)]
    else
      var front := NatToString(n / 10);
      var s := front + [DigitChar(n % 10)];
      assert s[..|s| - 1] == front;
      s
  }

  /** The other direction of the round trip: a digit string with no leading
      zero is the rendering of its value. */
  lemma {:induction false} NatToStringOfDecimal(s: string)
    requires |s| > 0 && AllDigits(s)
    requires s[0] == '0' ==> s == "0"
    ensures NatToString(DecimalValue(s)) == s
  {
    var init, last := s[..|s| - 1], s[|s| - 1];
    var n := DecimalValue(s);
    if |s| == 1 {
      assert init == [] && DecimalValue(init) == 0;
      assert n == DigitValue(last);
      assert [DigitChar(n)] == s;
    } else {
      assert init[0] == s[0] && s[0] != '0';
      LeadingDigitPositive(init);
      DivMod10(DecimalValue(init), DigitValue(last));
      NatToStringOfDecimal(init);
      assert s == init + [last];
    }
  }

  lemma DivMod10(a: nat, d: nat)
    requires d < 10
    ensures (10 * a + d) / 10 == a && (10 * a + d) % 10 == d
  {
  }

  lemma {:induction false} LeadingDigitPositive(s: string)
    requires |s| > 0 && AllDigits(s) && s[0] != '0'
    ensures DecimalValue(s) > 0
  {
    if |s| > 1 {
      var init := s[..|s| - 1];
      assert init[0] == s[0];
      LeadingDigitPositive(init);
    }
  }

  /** `${c.metadata.year}`: the number in decimal, or the string 'unknown'. */
  function YearText(y: Year): string
  {
    match y
    case Year(v) => NatToString(v)
    case Unknown => "unknown"
  }

  /** `[${c.metadata.year}] ${c.content}` */
  function Render(sc: Scored): string
  {
    "[" + YearText(sc.chunk.metadata.year) + "] " + sc.chunk.content
  }

  /** A rendering is the bracketed year, a space and the content, and a
      numeric year can be read back from between the brackets. */
  lemma RenderShape(sc: Scored)
    ensures var t := YearText(sc.chunk.metadata.year);
      && Render(sc) == "[" + t + "] " + sc.chunk.content
      && |Render(sc)| == |t| + 3 + |sc.chunk.content|
      && Render(sc)[0] == '[' && Render(sc)[|t| + 1..|t| + 3] == "] "
      && Render(sc)[|t| + 3..] == sc.chunk.content
      && (sc.chunk.metadata.year.Year? ==> AllDigits(t) && |t| > 0 && DecimalValue(t) == sc.chunk.metadata.year.value)
      && (sc.chunk.metadata.year.Unknown? ==> t == "unknown")
  {
    var t := YearText(sc.chunk.metadata.year);
    var r := Render(sc);
    assert r[1..|t| + 1] == t;
    assert r[|t| + 1..|t| + 3] == "] ";
    assert r[|t| + 3..] == sc.chunk.content;
  }

  /** `parts.join(sep)`: the separator goes between parts, not after the
      last one. */
  function Join(parts: seq<string>, sep: string): string
  {
    if |parts| == 0 then ""
    else if |parts| == 1 then parts[0]
    else Join(parts[..|parts| - 1], sep) + sep + parts[|parts| - 1]
  }

  /** Joining cuts at every boundary: the join of the first i parts, the
      separator, then the join of the rest. */
  lemma {:induction false} JoinSplit(parts: seq<string>, sep: string, i: nat)
    requires 0 < i < |parts|
    ensures Join(parts, sep) == Join(parts[..i], sep) + sep + Join(parts[i..], sep)
    decreases |parts|
  {
    var n := |parts|;
    var init := parts[..n - 1];
    assert init[..i] == parts[..i];
    if i == n - 1 {
      assert parts[i..] == [parts[n - 1]];
    } else {
      JoinSplit(init, sep, i);
      var right := parts[i..];
      assert right[..|right| - 1] == init[i..];
      assert right[|right| - 1] == parts[n - 1];
    }
  }

  /** Total length: the parts' lengths plus one separator per gap. */
  function TotalLength(parts: seq<string>): nat
  {
    if parts == [] then 0 else TotalLength(parts[..|parts| - 1]) + |parts[|parts| - 1]|
  }

  lemma {:induction false} JoinLength(parts: seq<string>, sep: string)
    requires |parts| > 0
    ensures |Join(parts, sep)| == TotalLength(parts) + (|parts| - 1) * |sep|
  {
    if |parts| == 1 {
      assert parts[..0] == [];
    } else {
      JoinLength(parts[..|parts| - 1], sep);
    }
  }

  /** `relevantChunks.map(c => ...)` */
  function Renders(rs: seq<Scored>): (ps: seq<string>)
    ensures |ps| == |rs| && forall i :: 0 <= i < |rs| ==> ps[i] == Render(rs[i])
  {
    seq(|rs|, i requires 0 <= i < |rs| => Render(rs[i]))
  }

  lemma RendersSplit(rs: seq<Scored>, i: nat)
    requires i <= |rs|
    ensures Renders(rs)[..i] == Renders(rs[..i]) && Renders(rs)[i..] == Renders(rs[i..])
  {
  }

  /** `relevantChunks.map(c => ...).join('\n\n')` */
  function ComposeContext(rs: seq<Scored>): string
  {
    Join(Renders(rs), "\n\n")
  }

  /** The context text: empty without results; otherwise the first result's
      rendering, and each further result's rendering after a blank line. */
  lemma ComposeContextShape(rs: seq<Scored>)
    ensures |rs| == 0 ==> ComposeContext(rs) == ""
    ensures |rs| == 1 ==> ComposeContext(rs) == Render(rs[0])
    ensures |rs| > 1 ==> ComposeContext(rs) == Render(rs[0]) + "\n\n" + ComposeContext(rs[1..])
    ensures |rs| > 1 ==> ComposeContext(rs) == ComposeContext(rs[..|rs| - 1]) + "\n\n" + Render(rs[|rs| - 1])
  {
    var parts := Renders(rs);
    if |rs| > 1 {
      var n := |rs|;
      JoinSplit(parts, "\n\n", 1);
      RendersSplit(rs, 1);
      assert parts[..1] == [Render(rs[0])];
      RendersSplit(rs, n - 1);
      assert parts[..n - 1] == Renders(rs[..n - 1]);
    }
  }

  /** What `runAgent` sends along with the question: the context of the top
      `DefaultTopK` results for the query's vector q. */
  function AgentContext(store: seq<Chunk>, q: Vector, score: Scorer): string
  {
    ComposeContext(SearchChunks(store, q, DefaultTopK, score))
  }
}
