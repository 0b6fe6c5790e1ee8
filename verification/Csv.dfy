/** Lines of the profile: written by Python's `csv` writer with minimal quoting
    (tools/realsense_steady_bench/generate_deadline_profile.py), split again by
    `split_csv` (src/deadline_scheduler.cpp). */
module Csv {
  import opened Wrappers
  import opened Text

  predicate IsSpecial(c: char) { c == ',' || c == '"' || c == '\n' || c == '\r' }

  predicate NeedsQuotes(field: string) {
    exists i :: 0 <= i < |field| && IsSpecial(field[i])
  }

  /** Every quote written twice. */
  function Doubled(field: string): string {
    if |field| == 0 then []
    else (if field[0] == '"' then ['"', '"'] else [field[0]]) + Doubled(field[1..])
  }

  function Quoted(field: string): string {
    if NeedsQuotes(field) then ['"'] + Doubled(field) + ['"'] else field
  }

  function QuotedFields(fields: seq<string>): (r: seq<string>)
    ensures |r| == |fields| && forall i :: 0 <= i < |fields| ==> r[i] == Quoted(fields[i])
  {
    seq(|fields|, i requires 0 <= i < |fields| => Quoted(fields[i]))
  }

  function Line(fields: seq<string>): string {
    Join(QuotedFields(fields), ',')
  }

  /** The fields of the rest of a line, given the field read so far and whether a
      quote is open; an open quote at the end is an error. */
  function Fields(rest: string, current: string, quoted: bool): Option<seq<string>> {
    if |rest| == 0 then (if quoted then None else Some([current]))
    else if rest[0] == '"' then
      if quoted && |rest| > 1 && rest[1] == '"' then Fields(rest[2..], current + ['"'], true)
      else Fields(rest[1..], current, !quoted)
    else if rest[0] == ',' && !quoted then Then(current, Fields(rest[1..], [], false))
    else Fields(rest[1..], current + [rest[0]], quoted)
  }

  function Then(field: string, more: Option<seq<string>>): Option<seq<string>> {
    if more.None? then None else Some([field] + more.value)
  }

  function Prepend(fields: seq<string>, more: Option<seq<string>>): Option<seq<string>> {
    if more.None? then None else Some(fields + more.value)
  }

  method SplitCsv(line: string) returns (result: Option<seq<string>>)
    ensures result == Fields(line, [], false)
  {
    var fields: seq<string> := [];
    var current: string := [];
    var quoted := false;
    var index := 0;
    assert line[0..] == line;
    PrependNothing(Fields(line, [], false));
    while index < |line|
      invariant index <= |line|
      invariant Prepend(fields, Fields(line[index..], current, quoted)) == Fields(line, [], false)
    {
      var rest := line[index..];
      assert rest[1..] == line[index + 1..];
      if line[index] == '"' {
        if quoted && index + 1 < |line| && line[index + 1] == '"' {
          assert rest[2..] == line[index + 2..];
          current := current + ['"'];
          index := index + 1;
        } else {
          quoted := !quoted;
        }
      } else if line[index] == ',' && !quoted {
        FieldEnds(fields, current, Fields(rest[1..], [], false));
        fields := fields + [current];
        current := [];
      } else {
        current := current + [line[index]];
      }
      index := index + 1;
    }
    if quoted {
      return None;
    }
    return Some(fields + [current]);
  }

  lemma PrependNothing(more: Option<seq<string>>)
    ensures Prepend([], more) == more
  {
    if more.Some? {
      assert [] + more.value == more.value;
    }
  }

  lemma FieldEnds(fields: seq<string>, current: string, more: Option<seq<string>>)
    ensures Prepend(fields, Then(current, more)) == Prepend(fields + [current], more)
  {
    if more.Some? {
      assert fields + ([current] + more.value) == fields + [current] + more.value;
    }
  }

  // ----- any line

  function Quotes(s: string): nat {
    if |s| == 0 then 0 else Quotes(s[1..]) + if s[0] == '"' then 1 else 0
  }

  /** A line is refused exactly when its quotes do not pair up. */
  lemma {:induction false} RefusedExactly(rest: string, current: string, quoted: bool)
    ensures Fields(rest, current, quoted).None? <==> (Quotes(rest) % 2 == 1) != quoted
    decreases |rest|
  {
    if |rest| > 0 {
      if rest[0] == '"' {
        if quoted && |rest| > 1 && rest[1] == '"' {
          assert rest[1..][1..] == rest[2..];
          RefusedExactly(rest[2..], current + ['"'], true);
        } else {
          RefusedExactly(rest[1..], current, !quoted);
        }
      } else if rest[0] == ',' && !quoted {
        RefusedExactly(rest[1..], [], false);
      } else {
        RefusedExactly(rest[1..], current + [rest[0]], quoted);
      }
    }
  }

  /** The parts with something put in front of the first. */
  function Led(current: string, parts: seq<string>): seq<string>
    requires |parts| > 0
  {
    [current + parts[0]] + parts[1..]
  }

  /** A line without quotes is split at its commas. */
  lemma {:induction false} UnquotedSplits(rest: string, current: string)
    requires forall i :: 0 <= i < |rest| ==> rest[i] != '"'
    ensures Fields(rest, current, false) == Some(Led(current, Split(rest, IsComma)))
  {
    if |rest| == 0 {
      var none: string := [];
      assert Split(rest, IsComma) == [none] && current + none == current;
      assert Led(current, [none]) == [current];
    } else {
      var tail := rest[1..];
      var parts := Split(tail, IsComma);
      if rest[0] == ',' {
        var none: string := [];
        UnquotedSplits(tail, none);
        assert none + parts[0] == parts[0] && Led(none, parts) == parts;
        assert current + none == current && Led(current, [none] + parts) == [current] + parts;
      } else {
        UnquotedSplits(tail, current + [rest[0]]);
        assert current + [rest[0]] + parts[0] == current + ([rest[0]] + parts[0]);
      }
    }
  }

  // ----- round trip

  lemma {:induction false} PlainField(field: string, rest: string, current: string)
    requires !NeedsQuotes(field)
    ensures Fields(field + rest, current, false) == Fields(rest, current + field, false)
  {
    if |field| == 0 {
      assert field + rest == rest && current + field == current;
    } else {
      var tail := field[1..];
      assert !IsSpecial(field[0]);
      assert forall i :: 0 <= i < |tail| ==> tail[i] == field[i + 1];
      PlainField(tail, rest, current + [field[0]]);
      assert (field + rest)[1..] == tail + rest;
      assert current + [field[0]] + tail == current + field;
    }
  }

  /** Inside quotes everything up to the closing quote belongs to the field. */
  lemma {:induction false} QuotedField(field: string, rest: string, current: string)
    requires |rest| > 0 ==> rest[0] != '"'
    ensures Fields(Doubled(field) + ['"'] + rest, current, true) == Fields(rest, current + field, false)
  {
    var text := Doubled(field) + ['"'] + rest;
    if |field| == 0 {
      assert text == ['"'] + rest && text[1..] == rest && current + field == current;
    } else {
      var tail := field[1..];
      QuotedField(tail, rest, current + [field[0]]);
      assert current + [field[0]] + tail == current + field;
      if field[0] == '"' {
        assert text[2..] == Doubled(tail) + ['"'] + rest;
      } else {
        assert text[1..] == Doubled(tail) + ['"'] + rest;
      }
    }
  }

  lemma QuoteOpens(text: string, current: string)
    ensures Fields(['"'] + text, current, false) == Fields(text, current, true)
  {
    assert (['"'] + text)[1..] == text;
  }

  lemma CommaEnds(text: string, current: string)
    ensures Fields([','] + text, current, false) == Then(current, Fields(text, [], false))
  {
    assert ([','] + text)[1..] == text;
  }

  lemma QuotedReadsBack(field: string, rest: string, none: string)
    requires |none| == 0 && (|rest| > 0 ==> rest[0] == ',')
    ensures Fields(['"'] + Doubled(field) + ['"'] + rest, none, false) == Fields(rest, field, false)
  {
    QuotedField(field, rest, none);
    QuoteOpens(Doubled(field) + ['"'] + rest, none);
    assert ['"'] + Doubled(field) + ['"'] + rest == ['"'] + (Doubled(field) + ['"'] + rest);
    assert none + field == field;
  }

  lemma FieldReadsBack(field: string, rest: string)
    requires |rest| > 0 ==> rest[0] == ','
    ensures Fields(Quoted(field) + rest, [], false) == Fields(rest, field, false)
  {
    var none: string := [];
    if NeedsQuotes(field) {
      QuotedReadsBack(field, rest, none);
    } else {
      PlainField(field, rest, none);
      assert none + field == field;
    }
  }

  lemma JoinRest(first: string, more: seq<string>)
    requires |more| > 0
    ensures Join([first] + more, ',') == first + ([','] + Join(more, ','))
  {
    var all := [first] + more;
    assert all[0] == first && all[1..] == more;
  }

  /** Whatever the fields contain, a written line splits back into them. */
  lemma {:induction false} LineSplitsBack(fields: seq<string>)
    requires |fields| > 0
    ensures Fields(Line(fields), [], false) == Some(fields)
  {
    var first, more := fields[0], fields[1..];
    if |more| == 0 {
      var none: string := [];
      FieldReadsBack(first, none);
      assert Line(fields) == Quoted(first) + none;
      assert fields == [first];
    } else {
      LineSplitsBack(more);
      var rest := [','] + Line(more);
      assert QuotedFields(fields) == [Quoted(first)] + QuotedFields(more);
      JoinRest(Quoted(first), QuotedFields(more));
      FieldReadsBack(first, rest);
      CommaEnds(Line(more), first);
      assert fields == [first] + more;
    }
  }
}
