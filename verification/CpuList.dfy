/** CPU lists in the List format of cpuset(7)
    (tools/realsense_bench_common/cpu_isolation.py, `parse_cpu_list` and
    `format_cpu_list`).

    A finite set of CPUs is its ascending listing.  Only ASCII digits and white
    space are considered. */
module CpuList {
  import opened Wrappers
  import opened Sequences
  import opened Text

  // ----- decimal numbers

  predicate IsDigit(c: char) { '0' <= c <= '9' }

  /** `str.isdigit()`: at least one character, all digits. */
  predicate AllDigits(s: string) {
    |s| > 0 && forall i :: 0 <= i < |s| ==> IsDigit(s[i])
  }

  function Value(s: string): nat
    requires forall i :: 0 <= i < |s| ==> IsDigit(s[i])
  {
    if |s| == 0 then 0
    else
      var last := s[|s| - 1];
      assert IsDigit(last);
      10 * Value(s[..|s| - 1]) + (last - '0') as nat
  }

  function Decimal(n: nat): (s: string)
    ensures AllDigits(s)
  {
    var last := ['0' + (n % 10) as char];
    if n < 10 then last else Decimal(n / 10) + last
  }

  lemma {:induction false} DecimalReadsBack(n: nat)
    ensures Value(Decimal(n)) == n
  {
    var s := Decimal(n);
    var last := '0' + (n % 10) as char;
    assert (last - '0') as nat == n % 10;
    if n < 10 {
      assert s == [last] && s[..0] == [];
    } else {
      DecimalReadsBack(n / 10);
      assert s[..|s| - 1] == Decimal(n / 10);
    }
  }

  // ----- ranges

  datatype Run = Run(first: nat, last: nat)

  /** Add the CPUs from `first` to `last`. */
  function AddRange(cpus: seq<int>, first: int, last: int): seq<int>
    decreases last - first
  {
    if last < first then cpus else InsertNew(last, AddRange(cpus, first, last - 1))
  }

  /** The maximal ranges of consecutive CPUs. */
  function Runs(cpus: seq<nat>): (runs: seq<Run>)
    ensures |runs| == 0 <==> |cpus| == 0
    ensures |cpus| > 0 ==> runs[|runs| - 1].last == cpus[|cpus| - 1]
  {
    if |cpus| == 0 then []
    else
      var n := |cpus| - 1;
      var runs := Runs(cpus[..n]);
      if n > 0 && cpus[n] == cpus[n - 1] + 1 then Stretch(runs, cpus[n]) else runs + [Run(cpus[n], cpus[n])]
  }

  function Stretch(runs: seq<Run>, last: nat): (r: seq<Run>)
    requires |runs| > 0
    ensures |r| == |runs| && r[|r| - 1] == Run(runs[|runs| - 1].first, last)
  {
    var m := |runs| - 1;
    runs[..m] + [Run(runs[m].first, last)]
  }

  function Token(r: Run): string {
    if r.first == r.last then Decimal(r.first) else Decimal(r.first) + "-" + Decimal(r.last)
  }

  function Tokens(runs: seq<Run>): (tokens: seq<string>)
    ensures |tokens| == |runs| && forall i :: 0 <= i < |runs| ==> tokens[i] == Token(runs[i])
  {
    seq(|runs|, i requires 0 <= i < |runs| => Token(runs[i]))
  }

  function Format(cpus: seq<nat>): string {
    Join(Tokens(Runs(cpus)), ',')
  }

  lemma TokensAppend(runs: seq<Run>, r: Run)
    ensures Tokens(runs + [r]) == Tokens(runs) + [Token(r)]
  {
  }

  lemma StretchLast(runs: seq<Run>, first: nat, previous: nat, last: nat)
    ensures Stretch(runs + [Run(first, previous)], last) == runs + [Run(first, last)]
  {
    assert (runs + [Run(first, previous)])[..|runs|] == runs;
  }

  method FormatCpuList(cpus: seq<nat>) returns (text: string)
    requires Ascending(cpus)
    ensures text == Format(cpus)
  {
    if |cpus| == 0 {
      return "";
    }
    var ranges: seq<string> := [];
    var first, previous := cpus[0], cpus[0];
    ghost var runs: seq<Run> := [];
    for i := 1 to |cpus|
      invariant previous == cpus[i - 1]
      invariant Runs(cpus[..i]) == runs + [Run(first, previous)]
      invariant ranges == Tokens(runs)
    {
      RunsNext(cpus, i);
      StretchLast(runs, first, previous, cpus[i]);
      TokensAppend(runs, Run(first, previous));
      if cpus[i] == previous + 1 {
        previous := cpus[i];
      } else {
        ranges := ranges + [Token(Run(first, previous))];
        runs := runs + [Run(first, previous)];
        first, previous := cpus[i], cpus[i];
      }
    }
    assert cpus[..|cpus|] == cpus;
    TokensAppend(runs, Run(first, previous));
    ranges := ranges + [Token(Run(first, previous))];
    text := Join(ranges, ',');
  }

  lemma RunsNext(cpus: seq<nat>, i: nat)
    requires 0 < i < |cpus|
    ensures Runs(cpus[..i + 1]) ==
            if cpus[i] == cpus[i - 1] + 1 then Stretch(Runs(cpus[..i]), cpus[i])
            else Runs(cpus[..i]) + [Run(cpus[i], cpus[i])]
  {
    assert cpus[..i + 1][..i] == cpus[..i];
  }

  // ----- parsing

  function LStrip(s: string): string {
    if |s| > 0 && IsSpace(s[0]) then LStrip(s[1..]) else s
  }

  function Strip(s: string): string { RStrip(LStrip(s)) }

  /** Position of the first hyphen, or the length. */
  function Hyphen(s: string): (k: nat)
    ensures k <= |s| && (k < |s| ==> s[k] == '-') && forall i :: 0 <= i < k ==> s[i] != '-'
  {
    if |s| == 0 || s[0] == '-' then 0 else 1 + Hyphen(s[1..])
  }

  function ParseToken(token: string): Option<Run> {
    var k := Hyphen(token);
    if k < |token| then
      var a, b := token[..k], token[k + 1..];
      if AllDigits(a) && AllDigits(b) && Value(a) <= Value(b) then Some(Run(Value(a), Value(b))) else None
    else if AllDigits(token) then Some(Run(Value(token), Value(token)))
    else None
  }

  /** The CPUs of all tokens, or none if one of them is malformed. */
  function ParseTokens(tokens: seq<string>): Option<seq<int>> {
    if |tokens| == 0 then Some([])
    else
      var n := |tokens| - 1;
      var cpus, run := ParseTokens(tokens[..n]), ParseToken(Strip(tokens[n]));
      if cpus.None? || run.None? then None
      else Some(AddRange(cpus.value, run.value.first, run.value.last))
  }

  function Parse(text: string): Option<seq<int>> {
    var stripped := Strip(text);
    if |stripped| == 0 then Some([]) else ParseTokens(Split(stripped, IsComma))
  }

  lemma ParseNext(tokens: seq<string>, i: nat)
    requires i < |tokens|
    ensures var cpus, run := ParseTokens(tokens[..i]), ParseToken(Strip(tokens[i]));
            ParseTokens(tokens[..i + 1]) ==
            if cpus.None? || run.None? then None else Some(AddRange(cpus.value, run.value.first, run.value.last))
  {
    assert tokens[..i + 1][..i] == tokens[..i];
  }

  lemma {:induction false} OneMalformed(tokens: seq<string>, i: nat)
    requires i < |tokens| && ParseToken(Strip(tokens[i])).None?
    ensures ParseTokens(tokens).None?
  {
    if i < |tokens| - 1 {
      OneMalformed(tokens[..|tokens| - 1], i);
    }
  }

  method ParseCpuList(text: string) returns (cpus: Option<seq<int>>)
    ensures cpus == Parse(text)
  {
    var stripped := Strip(text);
    if |stripped| == 0 {
      return Some([]);
    }
    var tokens := Split(stripped, IsComma);
    var found: seq<int> := [];
    for i := 0 to |tokens|
      invariant ParseTokens(tokens[..i]) == Some(found)
    {
      ParseNext(tokens, i);
      var run := ParseToken(Strip(tokens[i]));
      if run.None? {
        OneMalformed(tokens, i);
        return None;
      }
      found := AddRange(found, run.value.first, run.value.last);
    }
    assert tokens[..|tokens|] == tokens;
    return Some(found);
  }

  // ----- any text

  /** The token is a number, or two with a hyphen between them, not descending. */
  ghost predicate IsRange(token: string, first: nat, last: nat) {
    || (AllDigits(token) && first == last == Value(token))
    || (first <= last && exists a, b :: IsHyphenated(token, a, b) && Value(a) == first && Value(b) == last)
  }

  predicate IsHyphenated(token: string, a: string, b: string) {
    AllDigits(a) && AllDigits(b) && token == a + "-" + b
  }

  lemma HyphenSplits(token: string, a: string, b: string)
    requires IsHyphenated(token, a, b)
    ensures Hyphen(token) == |a| && token[..|a|] == a && token[|a| + 1..] == b && !AllDigits(token)
  {
    HyphenAt(a, b);
    assert token[|a|] == '-';
  }

  lemma NoHyphen(token: string)
    requires AllDigits(token)
    ensures Hyphen(token) == |token|
  {
    if Hyphen(token) < |token| {
      assert IsDigit(token[Hyphen(token)]);
    }
  }

  lemma TokenMeaning(token: string, first: nat, last: nat)
    ensures ParseToken(token) == Some(Run(first, last)) <==> IsRange(token, first, last)
  {
    var k := Hyphen(token);
    if AllDigits(token) {
      NoHyphen(token);
    }
    if k < |token| {
      var a, b := token[..k], token[k + 1..];
      assert token == a + "-" + b;
      if AllDigits(a) && AllDigits(b) {
        assert IsHyphenated(token, a, b);
      }
    }
    forall a, b | IsHyphenated(token, a, b) ensures k == |a| && token[..k] == a && token[k + 1..] == b {
      HyphenSplits(token, a, b);
    }
  }

  lemma {:induction false} AddRangeMembers(cpus: seq<int>, first: int, last: int)
    requires Ascending(cpus)
    ensures Ascending(AddRange(cpus, first, last))
    ensures forall x :: x in AddRange(cpus, first, last) <==> x in cpus || first <= x <= last
    decreases last - first
  {
    if first <= last {
      AddRangeMembers(cpus, first, last - 1);
      InsertNewAscends(last, AddRange(cpus, first, last - 1));
    }
  }

  ghost predicate HasRange(token: string) {
    exists first: nat, last: nat :: IsRange(token, first, last)
  }

  ghost predicate Covers(token: string, x: int) {
    exists first: nat, last: nat :: IsRange(token, first, last) && first <= x <= last
  }

  /** The CPU is in one of the tokens' ranges. */
  ghost predicate IsListed(tokens: seq<string>, x: int) {
    exists i :: 0 <= i < |tokens| && Covers(Strip(tokens[i]), x)
  }

  ghost predicate AllRanges(tokens: seq<string>) {
    forall i :: 0 <= i < |tokens| ==> HasRange(Strip(tokens[i]))
  }

  lemma TokenParses(token: string)
    ensures ParseToken(token).Some? <==> HasRange(token)
    ensures var r := ParseToken(token);
            r.Some? ==> forall x :: Covers(token, x) <==> r.value.first <= x <= r.value.last
  {
    forall first: nat, last: nat ensures IsRange(token, first, last) <==> ParseToken(token) == Some(Run(first, last)) {
      TokenMeaning(token, first, last);
    }
    if ParseToken(token).Some? {
      var r := ParseToken(token).value;
      assert IsRange(token, r.first, r.last);
    }
  }

  lemma RangesLast(tokens: seq<string>, token: string)
    ensures AllRanges(tokens + [token]) <==> AllRanges(tokens) && HasRange(Strip(token))
    ensures forall x :: IsListed(tokens + [token], x) <==> IsListed(tokens, x) || Covers(Strip(token), x)
  {
    var all := tokens + [token];
    assert forall i :: 0 <= i < |tokens| ==> all[i] == tokens[i];
    assert all[|tokens|] == token;
    forall x ensures IsListed(all, x) <==> IsListed(tokens, x) || Covers(Strip(token), x) {
      if IsListed(tokens, x) {
        var i :| 0 <= i < |tokens| && Covers(Strip(tokens[i]), x);
        assert Covers(Strip(all[i]), x);
      }
    }
  }

  lemma {:induction false} TokensMeaning(tokens: seq<string>)
    ensures ParseTokens(tokens).Some? <==> AllRanges(tokens)
    ensures ParseTokens(tokens).Some? ==>
              && Ascending(ParseTokens(tokens).value)
              && forall x :: x in ParseTokens(tokens).value <==> IsListed(tokens, x)
  {
    if |tokens| > 0 {
      var n := |tokens| - 1;
      TokensMeaning(tokens[..n]);
      TokenParses(Strip(tokens[n]));
      RangesLast(tokens[..n], tokens[n]);
      assert tokens == tokens[..n] + [tokens[n]];
      if ParseTokens(tokens).Some? {
        var r := ParseToken(Strip(tokens[n])).value;
        AddRangeMembers(ParseTokens(tokens[..n]).value, r.first, r.last);
      }
    }
  }

  /** A text parses exactly when it is blank or all its comma-separated tokens are
      ranges, and then gives exactly the CPUs in one of them, in order. */
  lemma ParseMeaning(text: string)
    ensures var stripped := Strip(text); var tokens := Split(stripped, IsComma);
            && (Parse(text).Some? <==> stripped == [] || AllRanges(tokens))
            && (Parse(text).Some? ==>
                  && Ascending(Parse(text).value)
                  && forall x :: x in Parse(text).value <==> stripped != [] && IsListed(tokens, x))
  {
    TokensMeaning(Split(Strip(text), IsComma));
  }

  // ----- round trip

  predicate IsPlain(c: char) { IsDigit(c) || c == '-' }

  /** Only digits and hyphens. */
  predicate Plain(s: string) {
    forall i :: 0 <= i < |s| ==> IsPlain(s[i])
  }

  lemma StripPlain(s: string)
    requires |s| > 0 && !IsSpace(s[0]) && !IsSpace(s[|s| - 1])
    ensures Strip(s) == s
  {
  }

  lemma HyphenAt(a: string, b: string)
    requires AllDigits(a)
    ensures Hyphen(a + "-" + b) == |a|
  {
    var t := a + "-" + b;
    assert forall i :: 0 <= i < |a| ==> IsDigit(a[i]) && t[i] == a[i];
    assert t[|a|] == '-';
  }

  lemma RangeParses(r: Run)
    requires r.first < r.last
    ensures ParseToken(Token(r)) == Some(r)
  {
    var a, b, t := Decimal(r.first), Decimal(r.last), Token(r);
    HyphenAt(a, b);
    assert t[..|a|] == a && t[|a| + 1..] == b;
    DecimalReadsBack(r.first);
    DecimalReadsBack(r.last);
  }

  lemma SingleParses(r: Run)
    requires r.first == r.last
    ensures ParseToken(Token(r)) == Some(r)
  {
    var t := Token(r);
    DecimalReadsBack(r.first);
    assert forall i :: 0 <= i < |t| ==> IsDigit(t[i]);
  }

  lemma TokenIsPlain(r: Run)
    ensures |Token(r)| > 0 && Plain(Token(r)) && Strip(Token(r)) == Token(r)
  {
    var a, b, t := Decimal(r.first), Decimal(r.last), Token(r);
    if r.first != r.last {
      assert t == a + "-" + b;
      assert forall i :: 0 <= i < |a| ==> t[i] == a[i];
      assert forall i :: |a| < i < |t| ==> t[i] == b[i - |a| - 1];
    }
    assert Plain(t);
    assert IsPlain(t[0]) && IsPlain(t[|t| - 1]);
    StripPlain(t);
  }

  lemma TokenShape(r: Run)
    requires r.first <= r.last
    ensures |Token(r)| > 0 && Plain(Token(r)) && Strip(Token(r)) == Token(r)
    ensures ParseToken(Token(r)) == Some(r)
  {
    TokenIsPlain(r);
    if r.first < r.last {
      RangeParses(r);
    } else {
      SingleParses(r);
    }
  }

  /** Ranges in ascending order with at least one missing CPU between them. */
  predicate Separated(runs: seq<Run>) {
    && (forall i :: 0 <= i < |runs| ==> runs[i].first <= runs[i].last)
    && (forall i :: 0 < i < |runs| ==> runs[i - 1].last + 1 < runs[i].first)
  }

  /** The CPUs of the ranges. */
  function Expand(runs: seq<Run>): seq<int> {
    if |runs| == 0 then []
    else AddRange(Expand(runs[..|runs| - 1]), runs[|runs| - 1].first, runs[|runs| - 1].last)
  }

  lemma ParseLast(tokens: seq<string>, token: string, cpus: seq<int>, r: Run)
    requires ParseTokens(tokens) == Some(cpus) && ParseToken(Strip(token)) == Some(r)
    ensures ParseTokens(tokens + [token]) == Some(AddRange(cpus, r.first, r.last))
  {
    assert (tokens + [token])[..|tokens|] == tokens;
  }

  lemma {:induction false} ParseTokensOfRuns(runs: seq<Run>)
    requires forall i :: 0 <= i < |runs| ==> runs[i].first <= runs[i].last
    ensures ParseTokens(Tokens(runs)) == Some(Expand(runs))
  {
    if |runs| > 0 {
      var pre, r := runs[..|runs| - 1], runs[|runs| - 1];
      assert runs == pre + [r];
      ParseTokensOfRuns(pre);
      TokensAppend(pre, r);
      TokenShape(r);
      ParseLast(Tokens(pre), Token(r), Expand(pre), r);
      ExpandLast(pre, r);
    }
  }

  lemma {:induction false} JoinEnds(parts: seq<string>, c: char)
    requires |parts| > 0 && forall i :: 0 <= i < |parts| ==> |parts[i]| > 0 && Plain(parts[i])
    ensures var t := Join(parts, c); |t| > 0 && !IsSpace(t[0]) && !IsSpace(t[|t| - 1])
  {
    var t := Join(parts, c);
    if |parts| > 1 {
      JoinEnds(parts[1..], c);
      var rest := Join(parts[1..], c);
      assert t[0] == parts[0][0];
      assert t[|t| - 1] == rest[|rest| - 1];
    }
  }

  /** Text printed from well-formed ranges parses to their CPUs. */
  lemma {:induction false} PrintedRunsParse(runs: seq<Run>)
    requires forall i :: 0 <= i < |runs| ==> runs[i].first <= runs[i].last
    ensures Parse(Join(Tokens(runs), ',')) == Some(Expand(runs))
  {
    var tokens := Tokens(runs);
    if |runs| > 0 {
      forall i | 0 <= i < |tokens| ensures |tokens[i]| > 0 && Plain(tokens[i]) && Clean(tokens[i], IsComma) {
        TokenShape(runs[i]);
      }
      JoinEnds(tokens, ',');
      StripPlain(Join(tokens, ','));
      SplitJoin(tokens, ',', IsComma);
      ParseTokensOfRuns(runs);
    }
  }

  lemma {:induction false} InsertAtEnd(x: int, s: seq<int>)
    requires forall i :: 0 <= i < |s| ==> s[i] < x
    ensures InsertNew(x, s) == s + [x]
  {
    if |s| > 0 {
      InsertAtEnd(x, s[1..]);
      assert s == [s[0]] + s[1..];
    }
  }

  lemma {:induction false} RunsAreSeparated(cpus: seq<nat>)
    requires Ascending(cpus)
    ensures Separated(Runs(cpus))
  {
    if |cpus| > 0 {
      RunsAreSeparated(cpus[..|cpus| - 1]);
    }
  }

  lemma ExpandLast(runs: seq<Run>, r: Run)
    ensures Expand(runs + [r]) == AddRange(Expand(runs), r.first, r.last)
  {
    assert (runs + [r])[..|runs|] == runs;
  }

  lemma ExpandSingle(runs: seq<Run>, x: nat)
    ensures Expand(runs + [Run(x, x)]) == InsertNew(x, Expand(runs))
  {
    ExpandLast(runs, Run(x, x));
    assert AddRange(Expand(runs), x, x - 1) == Expand(runs);
  }

  lemma ExpandStretch(runs: seq<Run>)
    requires |runs| > 0 && runs[|runs| - 1].first <= runs[|runs| - 1].last
    ensures var last := runs[|runs| - 1].last + 1; Expand(Stretch(runs, last)) == InsertNew(last, Expand(runs))
  {
    var m := |runs| - 1;
    var r := runs[m];
    assert runs == runs[..m] + [r];
    ExpandLast(runs[..m], r);
    ExpandLast(runs[..m], Run(r.first, r.last + 1));
  }

  lemma AscendingLast(cpus: seq<nat>, x: nat)
    ensures Ascending(cpus + [x]) <==> Ascending(cpus) && (|cpus| > 0 ==> cpus[|cpus| - 1] < x)
    ensures Ascending(cpus + [x]) ==> InsertNew(x, cpus) == cpus + [x]
  {
    var all := cpus + [x];
    assert forall i :: 0 <= i < |cpus| ==> all[i] == cpus[i];
    assert all[|cpus|] == x;
    if Ascending(all) {
      InsertAtEnd(x, cpus);
    }
  }

  /** The runs of one more CPU. */
  function More(cpus: seq<nat>, runs: seq<Run>, x: nat): seq<Run>
    requires |cpus| > 0 ==> |runs| > 0
  {
    if |cpus| > 0 && x == cpus[|cpus| - 1] + 1 then Stretch(runs, x) else runs + [Run(x, x)]
  }

  lemma RunsLast(cpus: seq<nat>, x: nat)
    ensures Runs(cpus + [x]) == More(cpus, Runs(cpus), x)
  {
    assert (cpus + [x])[..|cpus|] == cpus;
  }

  lemma {:induction false} ExpandOneMore(pre: seq<nat>, runs: seq<Run>, x: nat)
    requires Ascending(pre + [x]) && Separated(runs) && Expand(runs) == pre
    requires |pre| > 0 ==> |runs| > 0 && runs[|runs| - 1].last == pre[|pre| - 1]
    ensures Expand(More(pre, runs, x)) == pre + [x]
  {
    AscendingLast(pre, x);
    if |pre| > 0 && x == pre[|pre| - 1] + 1 {
      ExpandStretch(runs);
    } else {
      ExpandSingle(runs, x);
    }
  }

  lemma ExpandLastCpu(pre: seq<nat>, x: nat)
    requires Ascending(pre + [x]) && Separated(Runs(pre)) && Expand(Runs(pre)) == pre
    ensures Expand(Runs(pre + [x])) == pre + [x]
  {
    ExpandOneMore(pre, Runs(pre), x);
    RunsLast(pre, x);
  }

  lemma {:induction false} ExpandRuns(cpus: seq<nat>)
    requires Ascending(cpus)
    ensures Expand(Runs(cpus)) == cpus
  {
    if |cpus| > 0 {
      var pre, x := cpus[..|cpus| - 1], cpus[|cpus| - 1];
      assert cpus == pre + [x];
      ExpandRuns(pre);
      RunsAreSeparated(pre);
      ExpandLastCpu(pre, x);
    }
  }

  lemma RunBegins(cpus: seq<nat>, first: nat)
    requires Ascending(cpus) && (|cpus| > 0 ==> cpus[|cpus| - 1] + 1 < first)
    ensures Ascending(cpus + [first]) && Runs(cpus + [first]) == Runs(cpus) + [Run(first, first)]
    ensures InsertNew(first, cpus) == cpus + [first]
  {
    RunsLast(cpus, first);
    AscendingLast(cpus, first);
  }

  lemma RunGrows(cpus: seq<nat>, x: nat, runs: seq<Run>, first: nat)
    requires Ascending(cpus) && |cpus| > 0 && cpus[|cpus| - 1] + 1 == x && Runs(cpus) == runs + [Run(first, x - 1)]
    ensures Ascending(cpus + [x]) && Runs(cpus + [x]) == runs + [Run(first, x)]
    ensures InsertNew(x, cpus) == cpus + [x]
  {
    RunsLast(cpus, x);
    AscendingLast(cpus, x);
    StretchLast(runs, first, x - 1, x);
  }

  /** Consecutive CPUs form one more range if a CPU is missing before them. */
  lemma {:induction false} ConsecutiveIsARun(cpus: seq<nat>, runs: seq<Run>, first: nat, last: nat)
    returns (more: seq<nat>)
    requires Ascending(cpus) && Runs(cpus) == runs && first <= last
    requires |cpus| > 0 ==> cpus[|cpus| - 1] + 1 < first
    ensures Ascending(more) && |more| > 0 && more[|more| - 1] == last
    ensures Runs(more) == runs + [Run(first, last)]
    ensures more == AddRange(cpus, first, last)
    decreases last - first
  {
    var before := cpus;
    if first == last {
      RunBegins(cpus, first);
    } else {
      before := ConsecutiveIsARun(cpus, runs, first, last - 1);
      RunGrows(before, last, runs, first);
    }
    more := before + [last];
    AddLast(cpus, first, last, before);
  }

  lemma AddLast(cpus: seq<nat>, first: int, last: nat, before: seq<nat>)
    requires first <= last && InsertNew(last, before) == before + [last]
    requires before == if first == last then cpus else AddRange(cpus, first, last - 1)
    ensures AddRange(cpus, first, last) == before + [last]
  {
    assert first == last ==> AddRange(cpus, first, last - 1) == cpus;
  }

  /** Every list of separated ranges lists the maximal ranges of its own CPUs. */
  lemma {:induction false} SeparatedRunsAreCanonical(runs: seq<Run>) returns (cpus: seq<nat>)
    requires Separated(runs)
    ensures IsListing(cpus, runs)
  {
    if |runs| == 0 {
      cpus := [];
    } else {
      var pre, r := runs[..|runs| - 1], runs[|runs| - 1];
      assert runs == pre + [r];
      SeparatedPrefix(pre, r);
      var before := SeparatedRunsAreCanonical(pre);
      cpus := ListOneMore(before, pre, r);
    }
  }

  /** The CPUs of the ranges, whose maximal ranges they are. */
  predicate IsListing(cpus: seq<nat>, runs: seq<Run>) {
    && cpus == Expand(runs) && Ascending(cpus) && Runs(cpus) == runs
    && (if |runs| > 0 then |cpus| > 0 && cpus[|cpus| - 1] == runs[|runs| - 1].last else |cpus| == 0)
  }

  lemma ListOneMore(cpus: seq<nat>, runs: seq<Run>, r: Run) returns (more: seq<nat>)
    requires IsListing(cpus, runs) && r.first <= r.last && (|runs| > 0 ==> runs[|runs| - 1].last + 1 < r.first)
    ensures IsListing(more, runs + [r])
  {
    more := ConsecutiveIsARun(cpus, runs, r.first, r.last);
    ExpandLast(runs, r);
  }

  lemma SeparatedPrefix(runs: seq<Run>, r: Run)
    requires Separated(runs + [r])
    ensures Separated(runs) && r.first <= r.last && (|runs| > 0 ==> runs[|runs| - 1].last + 1 < r.first)
  {
    var all := runs + [r];
    assert forall i :: 0 <= i < |runs| ==> all[i] == runs[i];
    assert all[|runs|] == r;
  }

  /** Printing a CPU set and parsing it gives the set back. */
  lemma ParseFormat(cpus: seq<nat>)
    requires Ascending(cpus)
    ensures Parse(Format(cpus)) == Some(cpus)
  {
    RunsAreSeparated(cpus);
    PrintedRunsParse(Runs(cpus));
    ExpandRuns(cpus);
  }

  /** Equal printed lists, equal sets. */
  lemma FormatIsInjective(a: seq<nat>, b: seq<nat>)
    requires Ascending(a) && Ascending(b) && Format(a) == Format(b)
    ensures a == b
  {
    ParseFormat(a);
    ParseFormat(b);
  }

  /** The printed form is canonical: its ranges ascend with a CPU missing between
      neighbours, and every such list of ranges is the printed form of its CPUs. */
  lemma FormatIsCanonical(cpus: seq<nat>, runs: seq<Run>)
    requires Ascending(cpus) && Separated(runs)
    ensures Separated(Runs(cpus)) && Format(cpus) == Join(Tokens(Runs(cpus)), ',')
    ensures Join(Tokens(runs), ',') == Format(cpus) <==> Expand(runs) == cpus
  {
    RunsAreSeparated(cpus);
    PrintedRunsParse(runs);
    ParseFormat(cpus);
    var canonical := SeparatedRunsAreCanonical(runs);
    assert Runs(canonical) == runs;
  }
}
