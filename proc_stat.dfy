/** The thread count the agent reads for one process from `/proc/[pid]/stat`
    (src/agent/system_data.rs, the `thread_count` match inside
    `collect_extended_metrics`): Rust's `str::split_whitespace`, the
    `.nth(19)` token, `str::parse::<usize>` and the default of 1 for every
    failure. */
module ProcStat {
  import opened Util

  /** `usize` on a 64-bit target; on a 32-bit target the bound would be 2^32 - 1. */
  const USIZE_MAX: nat := 0xFFFF_FFFF_FFFF_FFFF

  type usize = n: nat | n <= USIZE_MAX

  /** The zero-based index of the token the agent reads (field 20, `num_threads`,
      in the numbering of proc(5)). */
  const THREAD_FIELD: nat := 19

  /** What opening and reading the stat file produced. */
  datatype StatRead =
    | OpenFailed          // `File::open` returned `Err`
    | ReadFailed          // `read_to_string` failed (an I/O error or invalid UTF-8)
    | Read(contents: string)

  /** `char::is_whitespace`: the Unicode `White_Space` property. */
  predicate IsWhitespace(c: char)
  {
    || ('\t' <= c <= '\r')
    || c == ' '
    || c == '\U{0085}'
    || c == '\U{00A0}'
    || c == '\U{1680}'
    || ('\U{2000}' <= c <= '\U{200A}')
    || c == '\U{2028}'
    || c == '\U{2029}'
    || c == '\U{202F}'
    || c == '\U{205F}'
    || c == '\U{3000}'
  }

  /** A token of `split_whitespace`: non-empty, with no whitespace in it. */
  predicate IsToken(t: string)
  {
    t != [] && forall i :: 0 <= i < |t| ==> !IsWhitespace(t[i])
  }

  /** Whitespace only (possibly empty): what separates, precedes or follows the tokens. */
  predicate AllWhitespace(g: string)
  {
    forall i :: 0 <= i < |g| ==> IsWhitespace(g[i])
  }

  /** `s` with its leading whitespace removed. */
  function TrimStart(s: string): (r: string)
    ensures |r| <= |s|
    ensures r == [] || !IsWhitespace(r[0])
    ensures AllWhitespace(s[..|s| - |r|])
  {
    if s != [] && IsWhitespace(s[0]) then
      var r := TrimStart(s[1..]);
      assert forall i :: 1 <= i < |s| - |r| ==> s[i] == s[1..][i - 1];
      r
    else s
  }

  /** The length of the longest whitespace-free prefix of `s`. */
  function TokenLength(s: string): (n: nat)
    ensures n <= |s|
    ensures forall i :: 0 <= i < n ==> !IsWhitespace(s[i])
    ensures n < |s| ==> IsWhitespace(s[n])
  {
    if s == [] || IsWhitespace(s[0]) then 0 else 1 + TokenLength(s[1..])
  }

  /** The first token of a string that does not start with whitespace. */
  lemma LeadingToken(t: string)
    requires t != [] && !IsWhitespace(t[0])
    ensures TokenLength(t) >= 1 && IsToken(t[..TokenLength(t)])
  {
  }

  lemma TokensCons(x: string, rest: seq<string>)
    requires IsToken(x) && forall k :: 0 <= k < |rest| ==> IsToken(rest[k])
    ensures forall k :: 0 <= k < |[x] + rest| ==> IsToken(([x] + rest)[k])
  {
    forall k | 0 <= k < |[x] + rest| ensures IsToken(([x] + rest)[k]) {
      if k > 0 {
        assert ([x] + rest)[k] == rest[k - 1];
      }
    }
  }

  /** `str::split_whitespace`, collected: the maximal whitespace-free runs of `s`, in order. */
  function SplitWhitespace(s: string): (r: seq<string>)
    ensures forall k :: 0 <= k < |r| ==> IsToken(r[k])
    decreases |s|
  {
    var t := TrimStart(s);
    if t == [] then []
    else
      var n := TokenLength(t);
      LeadingToken(t);
      TokensCons(t[..n], SplitWhitespace(t[n..]));
      [t[..n]] + SplitWhitespace(t[n..])
  }

  /** Separators for the tokens `ts`: one before each token and one after the
      last, all whitespace, and non-empty between two tokens. */
  predicate ValidGaps(ts: seq<string>, gaps: seq<string>)
  {
    && |gaps| == |ts| + 1
    && (forall k :: 0 <= k < |gaps| ==> AllWhitespace(gaps[k]))
    && (forall k :: 0 < k < |ts| ==> gaps[k] != [])
  }

  /** The text `gaps[0] + ts[0] + gaps[1] + ... + ts[n - 1] + gaps[n]`. */
  function JoinWith(ts: seq<string>, gaps: seq<string>): string
    requires |gaps| == |ts| + 1
  {
    if ts == [] then gaps[0] else gaps[0] + (ts[0] + JoinWith(ts[1..], gaps[1..]))
  }

  /** The whitespace runs of `s` before, between and after its tokens. */
  function Gaps(s: string): seq<string>
    decreases |s|
  {
    var t := TrimStart(s);
    if t == [] then [s]
    else
      LeadingToken(t);
      [s[..|s| - |t|]] + Gaps(t[TokenLength(t)..])
  }

  lemma TrimStartOfToken(t: string, rest: string)
    requires IsToken(t)
    ensures TrimStart(t + rest) == t + rest
  {
    assert (t + rest)[0] == t[0];
  }

  lemma {:induction false} TrimStartAfterWhitespace(g: string, rest: string)
    requires AllWhitespace(g)
    ensures TrimStart(g + rest) == TrimStart(rest)
  {
    if g == [] {
      assert g + rest == rest;
    } else {
      assert (g + rest)[0] == g[0];
      assert (g + rest)[1..] == g[1..] + rest;
      TrimStartAfterWhitespace(g[1..], rest);
    }
  }

  lemma {:induction false} TokenLengthOfToken(t: string, rest: string)
    requires forall i :: 0 <= i < |t| ==> !IsWhitespace(t[i])
    requires rest == [] || IsWhitespace(rest[0])
    ensures TokenLength(t + rest) == |t|
  {
    if t == [] {
      assert t + rest == rest;
    } else {
      assert (t + rest)[0] == t[0];
      assert (t + rest)[1..] == t[1..] + rest;
      TokenLengthOfToken(t[1..], rest);
    }
  }

  lemma JoinWithStart(ts: seq<string>, gaps: seq<string>)
    requires |gaps| == |ts| + 1 && gaps[0] != []
    ensures JoinWith(ts, gaps) != [] && JoinWith(ts, gaps)[0] == gaps[0][0]
  {
  }

  lemma GapsTail(ts: seq<string>, gaps: seq<string>)
    requires ValidGaps(ts, gaps) && ts != []
    ensures ValidGaps(ts[1..], gaps[1..])
  {
    forall k | 0 <= k < |gaps[1..]| ensures AllWhitespace(gaps[1..][k]) {
      assert gaps[1..][k] == gaps[k + 1];
    }
    forall k | 0 < k < |ts[1..]| ensures gaps[1..][k] != [] {
      assert gaps[1..][k] == gaps[k + 1];
    }
  }

  /** Leading whitespace does not change the split. */
  lemma SplitAfterWhitespace(g: string, rest: string)
    requires AllWhitespace(g)
    ensures SplitWhitespace(g + rest) == SplitWhitespace(rest)
  {
    TrimStartAfterWhitespace(g, rest);
    TrimStartAfterWhitespace(TrimStart(rest)[..0], TrimStart(rest));
  }

  /** A token followed by the end or by whitespace is split off as it is. */
  lemma SplitAfterToken(t: string, rest: string)
    requires IsToken(t) && (rest == [] || IsWhitespace(rest[0]))
    ensures SplitWhitespace(t + rest) == [t] + SplitWhitespace(rest)
  {
    TrimStartOfToken(t, rest);
    TokenLengthOfToken(t, rest);
    assert (t + rest)[..|t|] == t && (t + rest)[|t|..] == rest;
  }

  /** In a valid layout, what follows the first token is empty or starts with whitespace. */
  lemma AfterTokenIsGap(ts: seq<string>, gaps: seq<string>)
    requires ValidGaps(ts, gaps) && ts != []
    ensures var rest := JoinWith(ts[1..], gaps[1..]);
            rest == [] || IsWhitespace(rest[0])
  {
    if |ts| > 1 {
      assert gaps[1..][0] == gaps[1] && gaps[1] != [] && AllWhitespace(gaps[1]);
      JoinWithStart(ts[1..], gaps[1..]);
    } else {
      assert JoinWith(ts[1..], gaps[1..]) == gaps[1] && AllWhitespace(gaps[1]);
    }
  }

  /** A gap, then a token, then text that splits into `ts`, splits into the token followed by `ts`. */
  lemma SplitJoinStep(text: string, g: string, t: string, rest: string, all: seq<string>)
    requires AllWhitespace(g) && IsToken(t) && (rest == [] || IsWhitespace(rest[0]))
    requires all != [] && all[0] == t && text == g + (t + rest) && SplitWhitespace(rest) == all[1..]
    ensures SplitWhitespace(text) == all
  {
    SeqCons(all);
    SplitAfterWhitespace(g, t + rest);
    SplitAfterToken(t, rest);
  }

  /** The inductive step of `SplitJoin`. */
  lemma SplitJoinCons(ts: seq<string>, gaps: seq<string>)
    requires ts != [] && |gaps| == |ts| + 1
    requires IsToken(ts[0]) && AllWhitespace(gaps[0])
    requires JoinWith(ts[1..], gaps[1..]) == [] || IsWhitespace(JoinWith(ts[1..], gaps[1..])[0])
    requires SplitWhitespace(JoinWith(ts[1..], gaps[1..])) == ts[1..]
    ensures SplitWhitespace(JoinWith(ts, gaps)) == ts
  {
    SplitJoinStep(JoinWith(ts, gaps), gaps[0], ts[0], JoinWith(ts[1..], gaps[1..]), ts);
  }

  /** Splitting tokens written out with any whitespace around and between them
      gives back exactly those tokens. */
  lemma {:induction false} SplitJoin(ts: seq<string>, gaps: seq<string>)
    requires forall k :: 0 <= k < |ts| ==> IsToken(ts[k])
    requires ValidGaps(ts, gaps)
    ensures SplitWhitespace(JoinWith(ts, gaps)) == ts
  {
    if ts == [] {
      SplitAfterWhitespace(gaps[0], []);
      assert gaps[0] + [] == gaps[0];
    } else {
      GapsTail(ts, gaps);
      SplitJoin(ts[1..], gaps[1..]);
      AfterTokenIsGap(ts, gaps);
      SplitJoinCons(ts, gaps);
    }
  }

  /** One step of `SplitWhitespace` and `Gaps` on a string with a token in it. */
  lemma SplitStep(s: string)
    requires TrimStart(s) != []
    ensures var t := TrimStart(s);
            var n := TokenLength(t);
            && 1 <= n <= |t|
            && SplitWhitespace(s) == [t[..n]] + SplitWhitespace(t[n..])
            && Gaps(s) == [s[..|s| - |t|]] + Gaps(t[n..])
            && (t[n..] == [] || IsWhitespace(t[n..][0]))
  {
    LeadingToken(TrimStart(s));
  }

  /** When the text after a token is non-empty it starts with whitespace, so if it
      has a token its first gap is non-empty. */
  lemma FirstGapNonEmpty(rest: string)
    requires rest == [] || IsWhitespace(rest[0])
    ensures SplitWhitespace(rest) != [] ==> Gaps(rest)[0] != []
  {
    if rest != [] {
      assert TrimStart(rest) == TrimStart(rest[1..]);
    }
  }

  /** Putting one gap and one token in front of a valid layout gives a valid layout. */
  lemma JoinCons(lead: string, tok: string, ts: seq<string>, gs: seq<string>)
    requires AllWhitespace(lead) && ValidGaps(ts, gs)
    requires ts != [] ==> gs[0] != []
    ensures ValidGaps([tok] + ts, [lead] + gs)
    ensures JoinWith([tok] + ts, [lead] + gs) == lead + (tok + JoinWith(ts, gs))
  {
    var tsAll, gsAll := [tok] + ts, [lead] + gs;
    assert tsAll[1..] == ts && gsAll[1..] == gs;
    forall k | 0 <= k < |gsAll| ensures AllWhitespace(gsAll[k]) {
      if k > 0 {
        assert gsAll[k] == gs[k - 1];
      }
    }
    forall k | 0 < k < |tsAll| ensures gsAll[k] != [] {
      assert gsAll[k] == gs[k - 1];
    }
  }

  lemma SeqCons(all: seq<string>)
    requires all != []
    ensures all == [all[0]] + all[1..]
  {
  }

  lemma SliceSplit(s: string, i: nat)
    requires i <= |s|
    ensures s == s[..i] + s[i..]
  {
  }

  /** What `TrimStart` leaves is a suffix of its input. */
  lemma {:induction false} TrimStartSuffix(s: string)
    ensures TrimStart(s) == s[|s| - |TrimStart(s)|..]
    decreases |s|
  {
    if s != [] && IsWhitespace(s[0]) {
      TrimStartSuffix(s[1..]);
      assert s[1..][|s| - 1 - |TrimStart(s)|..] == s[|s| - |TrimStart(s)|..];
    }
  }

  /** A string is its leading whitespace followed by the rest. */
  lemma TrimStartSplit(s: string)
    ensures AllWhitespace(s[..|s| - |TrimStart(s)|])
    ensures s == s[..|s| - |TrimStart(s)|] + TrimStart(s)
  {
    TrimStartSuffix(s);
    SliceSplit(s, |s| - |TrimStart(s)|);
  }

  /** What `SplitWhitespace` and `Gaps` still have to look at after the first token of `s`. */
  function AfterFirstToken(s: string): string
    requires TrimStart(s) != []
  {
    TrimStart(s)[TokenLength(TrimStart(s))..]
  }

  /** If the rest of `s` after its first token is its tokens written out with its gaps, so is `s`. */
  lemma DecomposeStep(s: string)
    requires TrimStart(s) != []
    requires ValidGaps(SplitWhitespace(AfterFirstToken(s)), Gaps(AfterFirstToken(s)))
    requires JoinWith(SplitWhitespace(AfterFirstToken(s)), Gaps(AfterFirstToken(s))) == AfterFirstToken(s)
    ensures ValidGaps(SplitWhitespace(s), Gaps(s))
    ensures JoinWith(SplitWhitespace(s), Gaps(s)) == s
  {
    var t := TrimStart(s);
    var n := TokenLength(t);
    var rest := t[n..];
    SplitStep(s);
    TrimStartSplit(s);
    SliceSplit(t, n);
    FirstGapNonEmpty(rest);
    JoinCons(s[..|s| - |t|], t[..n], SplitWhitespace(rest), Gaps(rest));
  }

  /** Conversely, every string is its tokens written out with its own gaps; so
      `SplitWhitespace` returns the one token list the string is made of. */
  lemma {:induction false} SplitWhitespaceDecomposes(s: string)
    ensures ValidGaps(SplitWhitespace(s), Gaps(s))
    ensures JoinWith(SplitWhitespace(s), Gaps(s)) == s
    decreases |s|
  {
    var t := TrimStart(s);
    if t == [] {
      assert s[..|s| - |t|] == s;
      assert SplitWhitespace(s) == [] && Gaps(s) == [s];
    } else {
      LeadingToken(t);
      SplitWhitespaceDecomposes(AfterFirstToken(s));
      DecomposeStep(s);
    }
  }

  /** The separators of a `/proc/[pid]/stat` line: nothing before the first
      field, one space between fields and a newline after the last. */
  function StatLineGaps(n: nat): seq<string>
  {
    seq(n + 1, k => if k == n then "\n" else if k == 0 then "" else " ")
  }

  predicate IsDigit(c: char)
  {
    '0' <= c <= '9'
  }

  predicate AllDigits(s: string)
  {
    forall i :: 0 <= i < |s| ==> IsDigit(s[i])
  }

  /** The value of a string of decimal digits, most significant first. */
  function DigitsValue(s: string): nat
    requires AllDigits(s)
  {
    if s == [] then 0
    else DigitsValue(s[..|s| - 1]) * 10 + (s[|s| - 1] as int - '0' as int)
  }

  /** The shortest decimal representation of `n` (what `usize`'s `Display` writes). */
  function Decimal(n: nat): (s: string)
    ensures s != [] && AllDigits(s)
  {
    var d := ['0' + (n % 10) as char];
    if n < 10 then d else Decimal(n / 10) + d
  }

  /** `str::parse::<usize>`: an optional leading `+` and then at least one
      ASCII digit, with a value that fits in `usize`. Anything else, a `-`
      sign included, is an error. */
  function ParseUsize(s: string): (r: Option<usize>)
    ensures r.Some? ==> |s| > 0 && forall i :: 0 <= i < |s| ==> IsDigit(s[i]) || (i == 0 && s[i] == '+' && |s| > 1)
  {
    var digits := if |s| > 0 && s[0] == '+' then s[1..] else s;
    if digits != [] && AllDigits(digits) && DigitsValue(digits) <= USIZE_MAX
    then Some(DigitsValue(digits))
    else None
  }

  /** Conversely, every optional `+` followed by ASCII digits whose value fits
      in `usize` parses, leading zeros included (`"007"` gives 7). */
  lemma ParseUsizeComplete(sign: string, digits: string)
    requires sign == "" || sign == "+"
    requires digits != [] && AllDigits(digits) && DigitsValue(digits) <= USIZE_MAX
    ensures ParseUsize(sign + digits) == Some(DigitsValue(digits))
  {
    if sign == "" {
      assert sign + digits == digits;
    } else {
      assert (sign + digits)[1..] == digits;
    }
  }

  /** Digits whose value does not fit in `usize` are rejected (Rust's
      `PosOverflow`), with or without a `+` sign. */
  lemma ParseUsizeOverflow(sign: string, digits: string)
    requires sign == "" || sign == "+"
    requires AllDigits(digits) && DigitsValue(digits) > USIZE_MAX
    ensures ParseUsize(sign + digits) == None
  {
    if sign == "" {
      assert sign + digits == digits;
    } else {
      assert (sign + digits)[1..] == digits;
    }
  }

  lemma {:induction false} DigitsValueOfDecimal(n: nat)
    ensures DigitsValue(Decimal(n)) == n
  {
    var d := ['0' + (n % 10) as char];
    if n >= 10 {
      var s := Decimal(n / 10) + d;
      assert s[..|s| - 1] == Decimal(n / 10);
      DigitsValueOfDecimal(n / 10);
    }
  }

  /** Parsing what `Display` writes gives the number back, with or without a `+` sign. */
  lemma ParseDecimal(n: usize)
    ensures ParseUsize(Decimal(n)) == Some(n)
    ensures ParseUsize("+" + Decimal(n)) == Some(n)
  {
    DigitsValueOfDecimal(n);
    assert ("+" + Decimal(n))[1..] == Decimal(n);
  }

  /** The thread count of one process: the token at index 19 of the stat file
      parsed as `usize`, and 1 when the file cannot be opened or read, has
      fewer than 20 tokens, or that token does not parse. */
  function ThreadCount(stat: StatRead): (n: usize)
    ensures stat.OpenFailed? || stat.ReadFailed? ==> n == 1
    ensures stat.Read? && |SplitWhitespace(stat.contents)| <= THREAD_FIELD ==> n == 1
  {
    match stat
    case OpenFailed => 1
    case ReadFailed => 1
    case Read(contents) => FieldCount(SplitWhitespace(contents))
  }

  /** `.nth(19)`, parsed as `usize`, with 1 when the token is missing or not a number. */
  function FieldCount(tokens: seq<string>): usize
  {
    if |tokens| > THREAD_FIELD then
      match ParseUsize(tokens[THREAD_FIELD])
      case Some(v) => v
      case None => 1
    else 1
  }

  /** For a stat file made of fields with any whitespace around and between
      them, the count is field index 19 parsed as `usize`, or 1 when that field
      is not a number. */
  lemma ThreadCountOfStatLine(fields: seq<string>, gaps: seq<string>)
    requires forall k :: 0 <= k < |fields| ==> IsToken(fields[k])
    requires ValidGaps(fields, gaps) && |fields| > THREAD_FIELD
    ensures ThreadCount(Read(JoinWith(fields, gaps))) ==
              match ParseUsize(fields[THREAD_FIELD]) case Some(v) => v case None => 1
  {
    var text := JoinWith(fields, gaps);
    assert ThreadCount(Read(text)) == FieldCount(SplitWhitespace(text));
    assert SplitWhitespace(text) == fields by {
      SplitJoin(fields, gaps);
    }
  }

  /** The layout the kernel writes (fields separated by single spaces, a final
      newline) is one such layout. */
  lemma StatLineGapsValid(fields: seq<string>)
    ensures ValidGaps(fields, StatLineGaps(|fields|))
  {
    var gaps := StatLineGaps(|fields|);
    forall k | 0 <= k < |gaps| ensures AllWhitespace(gaps[k]) {
      assert gaps[k] == "\n" || gaps[k] == "" || gaps[k] == " ";
    }
  }

  /** A stat file whose field index 19 is the decimal number `n`, laid out as
      the kernel writes it, yields `n`. */
  lemma ThreadCountOfDecimal(fields: seq<string>, n: usize)
    requires forall k :: 0 <= k < |fields| ==> IsToken(fields[k])
    requires |fields| > THREAD_FIELD && fields[THREAD_FIELD] == Decimal(n)
    ensures ThreadCount(Read(JoinWith(fields, StatLineGaps(|fields|)))) == n
  {
    StatLineGapsValid(fields);
    ThreadCountOfStatLine(fields, StatLineGaps(|fields|));
    ParseDecimal(n);
  }

  /** The count is read by token position, so a command name with a space in it
      (field 2 of proc(5), `(comm)`) shifts the fields by one and the value read
      is field 19 (`nice`) instead of field 20 (`num_threads`). */
  lemma ThreadCountWithSpaceInComm(fields: seq<string>, commHead: string, commTail: string, gaps: seq<string>)
    requires forall k :: 0 <= k < |fields| ==> IsToken(fields[k])
    requires |fields| > THREAD_FIELD && IsToken(commHead) && IsToken(commTail)
    requires ValidGaps([fields[0], commHead, commTail] + fields[2..], gaps)
    requires ParseUsize(fields[THREAD_FIELD - 1]).Some?
    ensures ThreadCount(Read(JoinWith([fields[0], commHead, commTail] + fields[2..], gaps))) ==
              ParseUsize(fields[THREAD_FIELD - 1]).value
  {
    var shifted := [fields[0], commHead, commTail] + fields[2..];
    assert shifted[THREAD_FIELD] == fields[THREAD_FIELD - 1];
    forall k | 0 <= k < |shifted| ensures IsToken(shifted[k]) {
      if k >= 3 {
        assert shifted[k] == fields[k - 1];
      }
    }
    ThreadCountOfStatLine(shifted, gaps);
  }
}
