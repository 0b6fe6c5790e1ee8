/** Choosing the kernel of the next boot (reproduction/setup/kernel.py): the
    text edit of `config.txt` and of the chosen kernel's `cmdline.txt`. */
module KernelSelection {
  import opened Wrappers
  import opened Text

  datatype Variant = StandardUrb5 | StandardUrb16 | RtUrb16

  function Release(v: Variant): string {
    match v
    case StandardUrb5 => "6.12.96-rpi5-standard-btf+"
    case StandardUrb16 => "6.12.96-rpi5-standard-btf-uvc16+"
    case RtUrb16 => "6.12.96-rpi5-rt-btf-uvc16+"
  }

  function Prefix(v: Variant): string {
    match v
    case StandardUrb5 => "standard-6.12-btf"
    case StandardUrb16 => "standard-6.12-btf-uvc16"
    case RtUrb16 => "rt-6.12-btf-uvc16"
  }

  /** The snapshotted boot files: `config.txt`, then each variant's `cmdline.txt`. */
  type BootFiles = files: seq<string> | |files| == 4 witness ["", "", "", ""]

  function FileOf(v: Variant): (i: nat)
    ensures 1 <= i < 4
  {
    match v
    case StandardUrb5 => 1
    case StandardUrb16 => 2
    case RtUrb16 => 3
  }

  const PREFIX_KEY := "os_prefix="
  const THREADIRQS := "threadirqs"
  const ROOT_KEY := "root="

  predicate IsPrefixLine(line: string) { PREFIX_KEY <= line }

  function PrefixLine(prefix: string): string { PREFIX_KEY + prefix + "/" }

  function PrefixLines(lines: seq<string>): seq<string> {
    if lines == [] then []
    else (if IsPrefixLine(lines[0]) then [lines[0]] else []) + PrefixLines(lines[1..])
  }

  function ReplacePrefix(lines: seq<string>, replacement: string): (r: seq<string>)
    ensures |r| == |lines|
    ensures forall i :: 0 <= i < |lines| ==> r[i] == if IsPrefixLine(lines[i]) then replacement else lines[i]
  {
    if lines == [] then []
    else [if IsPrefixLine(lines[0]) then replacement else lines[0]] + ReplacePrefix(lines[1..], replacement)
  }

  function Without(words: seq<string>, word: string): seq<string> {
    if words == [] then []
    else (if words[0] == word then [] else [words[0]]) + Without(words[1..], word)
  }

  predicate HasRoot(words: seq<string>) { exists w :: w in words && ROOT_KEY <= w }

  function SelectConfig(config: string, prefix: string): Result<string> {
    var lines := Split(config, IsNewline);
    var count := |PrefixLines(lines)|;
    if count > 1 then Failure("Multiple os_prefix entries; inspect boot configuration")
    else if count == 1 then Success(Join(ReplacePrefix(lines, PrefixLine(prefix)), '\n'))
    else Success(RStrip(config) + "\n" + "\n" + "[all]" + "\n" + PrefixLine(prefix) + "\n")
  }

  function SelectCmdline(cmdline: string, threaded: bool): Result<string> {
    var words := Without(Words(cmdline), THREADIRQS);
    if !HasRoot(words) then Failure("Missing root= boot argument")
    else Success(Join(words + (if threaded then [THREADIRQS] else []), ' ') + "\n")
  }

  /** `boot_selection`: the new `config.txt` and the new `cmdline.txt`. */
  function BootSelection(config: string, cmdline: string, prefix: string, threaded: bool): Result<(string, string)> {
    match SelectConfig(config, prefix)
    case Failure(e) => Failure(e)
    case Success(c) =>
      match SelectCmdline(cmdline, threaded)
      case Failure(e) => Failure(e)
      case Success(l) => Success((c, l))
  }

  /** The configuration names this prefix and no other. */
  predicate Names(config: string, prefix: string) {
    PrefixLines(Split(config, IsNewline)) == [PrefixLine(prefix)]
  }

  // ----- words

  lemma {:induction false} WithoutWords(words: seq<string>, word: string)
    ensures word !in Without(words, word)
    ensures forall w :: w in Without(words, word) <==> w in words && w != word
    ensures Without(Without(words, word), word) == Without(words, word)
  {
    if words != [] {
      WithoutWords(words[1..], word);
      var rest := Without(words[1..], word);
      if words[0] != word {
        var all := [words[0]] + rest;
        assert Without(words, word) == all;
        assert all[0] == words[0] && all[1..] == rest;
        assert Without(all, word) == [words[0]] + Without(rest, word);
      } else {
        assert Without(words, word) == rest;
      }
    }
  }

  lemma {:induction false} WithoutAppend(words: seq<string>, word: string)
    ensures Without(words + [word], word) == Without(words, word)
  {
    if words != [] {
      WithoutAppend(words[1..], word);
      assert (words + [word])[0] == words[0] && (words + [word])[1..] == words[1..] + [word];
    } else {
      assert Without([word], word) == [];
    }
  }

  lemma ThreadirqsIsWord()
    ensures IsWord(THREADIRQS)
  {
    assert THREADIRQS == ['t', 'h', 'r', 'e', 'a', 'd', 'i', 'r', 'q', 's'];
  }

  /** The written command line holds `threadirqs` exactly when it was asked for,
      and every other argument in its old order. */
  lemma SelectCmdlineMeaning(cmdline: string, threaded: bool)
    ensures SelectCmdline(cmdline, threaded).Success? <==> HasRoot(Without(Words(cmdline), THREADIRQS))
    ensures SelectCmdline(cmdline, threaded).Success? ==>
              var after := SelectCmdline(cmdline, threaded).value;
              && (THREADIRQS in Words(after) <==> threaded)
              && Without(Words(after), THREADIRQS) == Without(Words(cmdline), THREADIRQS)
  {
    var kept := Without(Words(cmdline), THREADIRQS);
    if HasRoot(kept) {
      var words := kept + (if threaded then [THREADIRQS] else []);
      WordsAreWords(cmdline);
      WithoutWords(Words(cmdline), THREADIRQS);
      ThreadirqsIsWord();
      forall i | 0 <= i < |words| ensures IsWord(words[i]) {
        assert i < |kept| ==> words[i] in kept;
      }
      WordsOfLine(words);
      WithoutAppend(kept, THREADIRQS);
      assert kept + [] == kept;
    }
  }

  // ----- lines

  lemma {:induction false} PrefixLinesAppend(a: seq<string>, b: seq<string>)
    ensures PrefixLines(a + b) == PrefixLines(a) + PrefixLines(b)
  {
    if a == [] {
      assert a + b == b;
    } else {
      assert (a + b)[0] == a[0] && (a + b)[1..] == a[1..] + b;
      PrefixLinesAppend(a[1..], b);
    }
  }

  lemma {:induction false} NoPrefixLines(lines: seq<string>)
    ensures PrefixLines(lines) == [] <==> forall i :: 0 <= i < |lines| ==> !IsPrefixLine(lines[i])
  {
    if lines != [] {
      NoPrefixLines(lines[1..]);
      assert forall i :: 0 <= i < |lines[1..]| ==> lines[1..][i] == lines[i + 1];
      if PrefixLines(lines) == [] {
        forall i | 0 <= i < |lines| ensures !IsPrefixLine(lines[i]) {
          assert i > 0 ==> lines[i] == lines[1..][i - 1];
        }
      }
    }
  }

  lemma {:induction false} ReplacedPrefixLines(lines: seq<string>, prefix: string)
    ensures var after := ReplacePrefix(lines, PrefixLine(prefix));
            && PrefixLines(after) == seq(|PrefixLines(lines)|, _ => PrefixLine(prefix))
  {
    if lines != [] {
      ReplacedPrefixLines(lines[1..], prefix);
      var after := ReplacePrefix(lines, PrefixLine(prefix));
      assert after[1..] == ReplacePrefix(lines[1..], PrefixLine(prefix));
      assert IsPrefixLine(PrefixLine(prefix));
    }
  }

  lemma AllSectionLines(prefix: string)
    requires Clean(prefix, IsNewline)
    ensures Clean("[all]", IsNewline) && !IsPrefixLine("[all]") && !IsPrefixLine("")
    ensures Clean(PrefixLine(prefix), IsNewline) && IsPrefixLine(PrefixLine(prefix))
  {
    assert "[all]"[0] == '[' && PREFIX_KEY[0] == 'o';
  }

  lemma LineAdded(text: string, line: string)
    requires Clean(line, IsNewline)
    ensures Split(text + "\n" + line, IsNewline) == Split(text, IsNewline) + [line]
  {
    SplitAppend(text, '\n', line, IsNewline);
    SplitClean(line, IsNewline);
  }

  lemma FourLinesAdded(text: string, a: string, b: string, c: string, d: string)
    requires Clean(a, IsNewline) && Clean(b, IsNewline) && Clean(c, IsNewline) && Clean(d, IsNewline)
    ensures Split(text + "\n" + a + "\n" + b + "\n" + c + "\n" + d, IsNewline) == Split(text, IsNewline) + [a, b, c, d]
  {
    LineAdded(text, a);
    LineAdded(text + "\n" + a, b);
    LineAdded(text + "\n" + a + "\n" + b, c);
    LineAdded(text + "\n" + a + "\n" + b + "\n" + c, d);
  }

  /** The appended section, line by line. */
  lemma AppendedLines(stripped: string, prefix: string)
    requires Clean(prefix, IsNewline)
    ensures Split(stripped + "\n" + "\n" + "[all]" + "\n" + PrefixLine(prefix) + "\n", IsNewline)
            == Split(stripped, IsNewline) + ["", "[all]", PrefixLine(prefix), ""]
  {
    AllSectionLines(prefix);
    FourLinesAdded(stripped, "", "[all]", PrefixLine(prefix), "");
    assert stripped + "\n" + "" == stripped + "\n";
    var text := stripped + "\n" + "\n" + "[all]" + "\n" + PrefixLine(prefix) + "\n";
    assert text + "" == text;
  }

  lemma StrippedHasNoPrefixLine(config: string)
    requires PrefixLines(Split(config, IsNewline)) == []
    ensures PrefixLines(Split(RStrip(config), IsNewline)) == []
  {
    var lines, cut := Split(config, IsNewline), Split(RStrip(config), IsNewline);
    assert RStrip(config) == config[..|RStrip(config)|];
    SplitPrefix(config, |RStrip(config)|, IsNewline);
    NoPrefixLines(lines);
    NoPrefixLines(cut);
    forall i | 0 <= i < |cut| ensures !IsPrefixLine(cut[i]) {
      assert cut[i] <= lines[i];
    }
  }

  /** A written configuration names exactly the chosen prefix, and writing it
      fails exactly when the file already held several prefix entries. */
  lemma SelectConfigNames(config: string, prefix: string)
    requires Clean(prefix, IsNewline)
    ensures SelectConfig(config, prefix).Success? <==> |PrefixLines(Split(config, IsNewline))| <= 1
    ensures SelectConfig(config, prefix).Success? ==> Names(SelectConfig(config, prefix).value, prefix)
  {
    var lines := Split(config, IsNewline);
    var p := PrefixLine(prefix);
    AllSectionLines(prefix);
    if |PrefixLines(lines)| == 1 {
      var after := ReplacePrefix(lines, p);
      ReplacedPrefixLines(lines, prefix);
      SplitPartsClean(config, IsNewline);
      SplitJoin(after, '\n', IsNewline);
      assert PrefixLines(after) == [p];
    } else if |PrefixLines(lines)| == 0 {
      StrippedHasNoPrefixLine(config);
      AppendedLines(RStrip(config), prefix);
      var tail := ["", "[all]", p, ""];
      PrefixLinesAppend(Split(RStrip(config), IsNewline), tail);
      assert tail[1..] == ["[all]", p, ""] && tail[1..][1..] == [p, ""] && [p, ""][1..] == [""];
      assert PrefixLines([""]) == [];
      assert PrefixLines([p, ""]) == [p];
      assert PrefixLines(tail) == [p];
    }
  }

  /** Every other line stays where it is: only the prefix line is replaced, or,
      where there was none, an entry for all models is appended to the text
      without its trailing white space. */
  lemma SelectConfigKeeps(config: string, prefix: string)
    requires Clean(prefix, IsNewline) && SelectConfig(config, prefix).Success?
    ensures var lines, after := Split(config, IsNewline), Split(SelectConfig(config, prefix).value, IsNewline);
            if exists i :: 0 <= i < |lines| && IsPrefixLine(lines[i])
            then |after| == |lines|
                 && forall i :: 0 <= i < |lines| ==>
                                  after[i] == if IsPrefixLine(lines[i]) then PrefixLine(prefix) else lines[i]
            else after == Split(RStrip(config), IsNewline) + ["", "[all]", PrefixLine(prefix), ""]
    ensures IsStripped(config, RStrip(config))
  {
    RStripMeaning(config);
    var lines := Split(config, IsNewline);
    NoPrefixLines(lines);
    AllSectionLines(prefix);
    if |PrefixLines(lines)| == 1 {
      SplitPartsClean(config, IsNewline);
      SplitJoin(ReplacePrefix(lines, PrefixLine(prefix)), '\n', IsNewline);
    } else {
      AppendedLines(RStrip(config), prefix);
    }
  }

  lemma ReplaceOverReplaced(lines: seq<string>, first: string, second: string)
    ensures ReplacePrefix(ReplacePrefix(lines, PrefixLine(first)), PrefixLine(second))
            == ReplacePrefix(lines, PrefixLine(second))
  {
    assert IsPrefixLine(PrefixLine(first));
  }

  lemma {:induction false} ReplaceThird(lines: seq<string>, a: string, b: string, c: string, d: string, p: string)
    requires PrefixLines(lines) == [] && !IsPrefixLine(a) && !IsPrefixLine(b) && IsPrefixLine(c) && !IsPrefixLine(d)
    ensures ReplacePrefix(lines + [a, b, c, d], p) == lines + [a, b, p, d]
  {
    NoPrefixLines(lines);
    var all, after := lines + [a, b, c, d], ReplacePrefix(lines + [a, b, c, d], p);
    assert forall i :: 0 <= i < |lines| ==> all[i] == lines[i];
    assert all[|lines|] == a && all[|lines| + 1] == b && all[|lines| + 2] == c && all[|lines| + 3] == d;
    assert after == lines + [a, b, p, d];
  }

  lemma ReplaceAppended(lines: seq<string>, first: string, second: string)
    requires PrefixLines(lines) == [] && Clean(first, IsNewline)
    ensures ReplacePrefix(lines + ["", "[all]", PrefixLine(first), ""], PrefixLine(second))
            == lines + ["", "[all]", PrefixLine(second), ""]
  {
    AllSectionLines(first);
    ReplaceThird(lines, "", "[all]", PrefixLine(first), "", PrefixLine(second));
  }

  /** Only the last selection shows in `config.txt`: selecting `second` over a
      file written for `first` gives the file `second` alone would have given. */
  lemma LastSelectionWins(config: string, first: string, second: string)
    requires Clean(first, IsNewline) && Clean(second, IsNewline)
    requires SelectConfig(config, first).Success?
    ensures SelectConfig(SelectConfig(config, first).value, second) == SelectConfig(config, second)
  {
    var lines := Split(config, IsNewline);
    var once := SelectConfig(config, first).value;
    SelectConfigNames(config, first);
    if |PrefixLines(lines)| == 1 {
      AllSectionLines(first);
      SplitPartsClean(config, IsNewline);
      SplitJoin(ReplacePrefix(lines, PrefixLine(first)), '\n', IsNewline);
      ReplaceOverReplaced(lines, first, second);
    } else {
      var cut := RStrip(config);
      StrippedHasNoPrefixLine(config);
      AppendedLines(cut, first);
      AppendedLines(cut, second);
      ReplaceAppended(Split(cut, IsNewline), first, second);
      JoinSplit(SelectConfig(config, second).value, '\n', IsNewline);
    }
  }

  lemma PrefixesClean(v: Variant)
    ensures Clean(Prefix(v), IsNewline)
  {
  }

  /** Different kernels are named by different configuration lines. */
  lemma PrefixesDiffer(v: Variant, w: Variant)
    requires PrefixLine(Prefix(v)) == PrefixLine(Prefix(w))
    ensures v == w
  {
    assert PrefixLine(Prefix(v))[10] == Prefix(v)[0];
    assert PrefixLine(Prefix(w))[10] == Prefix(w)[0];
    assert |PrefixLine(Prefix(v))| == 11 + |Prefix(v)|;
    assert |PrefixLine(Prefix(w))| == 11 + |Prefix(w)|;
  }

  /** A selection that succeeds makes the configuration name the chosen kernel
      alone and its command line ask for threaded interrupts exactly as requested. */
  lemma BootSelectionSelects(config: string, cmdline: string, v: Variant, threaded: bool)
    ensures var r := BootSelection(config, cmdline, Prefix(v), threaded);
            r.Success? ==> Names(r.value.0, Prefix(v)) && (THREADIRQS in Words(r.value.1) <==> threaded)
  {
    PrefixesClean(v);
    SelectConfigNames(config, Prefix(v));
    SelectCmdlineMeaning(cmdline, threaded);
  }

  /** Selection succeeds exactly on a configuration with at most one prefix line
      and a command line with a root. */
  lemma BootSelectionExactly(config: string, cmdline: string, v: Variant, threaded: bool)
    ensures BootSelection(config, cmdline, Prefix(v), threaded).Success? <==>
            |PrefixLines(Split(config, IsNewline))| <= 1 && HasRoot(Without(Words(cmdline), THREADIRQS))
  {
    PrefixesClean(v);
    SelectConfigNames(config, Prefix(v));
    SelectCmdlineMeaning(cmdline, threaded);
  }

  /** What was selected can be selected again. */
  lemma SelectedAgain(config: string, cmdline: string, v: Variant, threaded: bool)
    ensures var r := BootSelection(config, cmdline, Prefix(v), threaded);
            r.Success? ==> && |PrefixLines(Split(r.value.0, IsNewline))| <= 1
                           && HasRoot(Without(Words(r.value.1), THREADIRQS))
  {
    PrefixesClean(v);
    SelectConfigNames(config, Prefix(v));
    SelectCmdlineMeaning(cmdline, threaded);
  }
}
