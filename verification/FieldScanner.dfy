/** The scanner that reads one string field off a serialized task without parsing it, against the text
    the serializer prints. Texts are sequences of code points: all characters the scanner looks at are
    ASCII, so on well-formed UTF-8 scanning bytes comes to the same. */
module FieldScanner {

  // ---------------------------------------------------------------- the scanner

  ghost predicate OccursAt(data: string, pattern: string, i: nat) {
    i + |pattern| <= |data| && data[i..i + |pattern|] == pattern
  }

  /** strings.Index: the first occurrence, or -1. */
  method Index(data: string, pattern: string) returns (idx: int)
    ensures idx >= 0 ==> OccursAt(data, pattern, idx) && forall i :: 0 <= i < idx ==> !OccursAt(data, pattern, i)
    ensures idx < 0 ==> forall i: nat :: !OccursAt(data, pattern, i)
  {
    idx := 0;
    while idx + |pattern| <= |data|
      invariant 0 <= idx && forall i :: 0 <= i < idx ==> !OccursAt(data, pattern, i)
      decreases |data| - idx
    {
      if data[idx..idx + |pattern|] == pattern {
        return;
      }
      idx := idx + 1;
    }
    idx := -1;
  }

  /** The text after its leading blanks and tabs. */
  function SkipBlanks(s: string): string {
    if s != [] && (s[0] == ' ' || s[0] == '\t') then SkipBlanks(s[1..]) else s
  }

  /** The value whose opening quote has been read: up to the next bare quote, with the character behind
      each backslash taken as it is; nothing when no quote ends it. */
  function Scan(s: string, read: string): string
    decreases |s|
  {
    if s == [] then ""
    else if s[0] == '\\' then
      (if |s| >= 2 then Scan(s[2..], read + [s[1]]) else Scan(s[1..], read + [s[0]]))
    else if s[0] == '"' then read
    else Scan(s[1..], read + [s[0]])
  }

  function Quoted(s: string): string {
    var t := SkipBlanks(s);
    if t == [] || t[0] != '"' then "" else Scan(t[1..], "")
  }

  function Pattern(key: string): string {
    "\"" + key + "\":"
  }

  ghost predicate FirstAt(data: string, pattern: string, i: nat) {
    OccursAt(data, pattern, i) && forall j :: 0 <= j < i ==> !OccursAt(data, pattern, j)
  }

  /** The quoted value behind the first occurrence of the key pattern, or nothing without one. */
  ghost predicate Extracted(data: string, key: string, value: string) {
    var p := Pattern(key);
    && (forall i: nat :: FirstAt(data, p, i) ==> value == Quoted(data[i + |p|..]))
    && ((forall i: nat :: !OccursAt(data, p, i)) ==> value == "")
  }

  lemma ExtractedAt(data: string, key: string, i: nat, value: string)
    requires FirstAt(data, Pattern(key), i) && value == Quoted(data[i + |Pattern(key)|..])
    ensures Extracted(data, key, value)
  {
  }

  /** Blanks and tabs in front of the quote make no difference, and only a quote that ends the value makes
      it one: what has no opening quote there, or no further quote at all, is read as nothing. */
  lemma {:induction false} QuotedNeedsBothQuotes(blanks: string, s: string)
    requires forall k :: 0 <= k < |blanks| ==> blanks[k] == ' ' || blanks[k] == '\t'
    ensures Quoted(blanks + s) == Quoted(s)
    ensures s != [] && s[0] !in {'"', ' ', '\t'} ==> Quoted(s) == ""
    ensures '"' !in s ==> Quoted("\"" + s) == ""
  {
    if blanks == [] {
      assert blanks + s == s;
      assert ("\"" + s)[1..] == s;
      UnendedIsNothing(s, "");
    } else {
      assert (blanks + s)[1..] == blanks[1..] + s;
      QuotedNeedsBothQuotes(blanks[1..], s);
    }
  }

  lemma {:induction false} UnendedIsNothing(s: string, read: string)
    ensures '"' !in s ==> Scan(s, read) == ""
    decreases |s|
  {
    if s == [] {
    } else if s[0] == '\\' && |s| >= 2 {
      UnendedIsNothing(s[2..], read + [s[1]]);
    } else {
      UnendedIsNothing(s[1..], read + [s[0]]);
    }
  }

  /** The scanning part of extractJSONField, behind the key pattern. */
  method ReadQuoted(data: string, start: nat) returns (value: string)
    requires start <= |data|
    ensures value == Quoted(data[start..])
  {
    var idx := start;
    while idx < |data| && (data[idx] == ' ' || data[idx] == '\t')
      invariant start <= idx <= |data| && SkipBlanks(data[idx..]) == SkipBlanks(data[start..])
    {
      idx := idx + 1;
    }
    if idx >= |data| || data[idx] != '"' {
      return "";
    }
    assert SkipBlanks(data[idx..]) == data[idx..] && data[idx..][1..] == data[idx + 1..];
    value := ReadToQuote(data, idx + 1);
  }

  /** The value whose opening quote has been passed. */
  method ReadToQuote(data: string, start: nat) returns (value: string)
    requires start <= |data|
    ensures value == Scan(data[start..], "")
  {
    var idx := start;
    var result := "";
    while idx < |data|
      invariant start <= idx <= |data| && Scan(data[idx..], result) == Scan(data[start..], "")
    {
      if data[idx] == '\\' {
        if idx + 1 < |data| {
          result := result + [data[idx + 1]];
          assert data[idx..][2..] == data[idx + 2..];
          idx := idx + 2;
        } else {
          result := result + [data[idx]];
          idx := idx + 1;
        }
      } else if data[idx] == '"' {
        return result;
      } else {
        result := result + [data[idx]];
        idx := idx + 1;
      }
    }
    return "";
  }

  method ExtractJSONField(data: string, key: string) returns (value: string)
    ensures Extracted(data, key, value)
  {
    var search := "\"" + key + "\":";
    var idx := Index(data, search);
    if idx < 0 {
      return "";
    }
    value := ReadQuoted(data, idx + |search|);
    ExtractedAt(data, key, idx, value);
  }

  method ExtractTaskName(data: string) returns (value: string)
    ensures Extracted(data, "task_name", value)
  {
    value := ExtractJSONField(data, "task_name");
  }

  method ExtractWorkflowUUID(data: string) returns (value: string)
    ensures Extracted(data, "workflow_id", value)
  {
    value := ExtractJSONField(data, "workflow_id");
  }

  // ---------------------------------------------------------------- the printer

  function HexDigit(n: nat): char
    requires n < 16
  {
    "0123456789abcdef"[n]
  }

  /** Characters written as \u and four hexadecimal digits: controls without a short form, the three
      characters special to HTML, and the two Unicode line separators. */
  predicate NeedsHex(c: char) {
    var n := c as int;
    || (n < 0x20 && n != 8 && n != 9 && n != 10 && n != 12 && n != 13)
    || c == '<' || c == '>' || c == '&' || n == 0x2028 || n == 0x2029
  }

  /** What follows the backslash of an escaped character. */
  function Behind(c: char): string
    requires NeedsEscape(c)
  {
    var n := c as int;
    if c == '"' || c == '\\' then [c]
    else if n == 8 then "b"
    else if n == 9 then "t"
    else if n == 10 then "n"
    else if n == 12 then "f"
    else if n == 13 then "r"
    else ['u', HexDigit(n / 0x1000 % 16), HexDigit(n / 0x100 % 16), HexDigit(n / 0x10 % 16), HexDigit(n % 16)]
  }

  predicate NeedsEscape(c: char) {
    var n := c as int;
    c == '"' || c == '\\' || n < 0x20 || NeedsHex(c)
  }

  function Escaped(c: char): string {
    if NeedsEscape(c) then ['\\'] + Behind(c) else [c]
  }

  function Escape(v: string): string {
    if v == [] then [] else Escaped(v[0]) + Escape(v[1..])
  }

  const HEAD := "{\"workflow_id\":\""
  const NEXT := ",\"task_name\":\""
  const MIDDLE := "\",\"task_name\":\""

  /** A printed value with its closing quote, and what follows it. */
  function Printed(v: string, rest: string): string {
    Escape(v) + "\"" + rest
  }

  /** A serialized task: its first two fields, and whatever comes after their closing quote. */
  function Print(workflowID: string, taskName: string, rest: string): string {
    HEAD + Printed(workflowID, NEXT + Printed(taskName, rest))
  }

  // ---------------------------------------------------------------- scanning what was printed

  function Seen(c: char): string {
    if NeedsEscape(c) then Behind(c) else [c]
  }

  /** What the scanner makes of a printed value: the escapes without their backslashes. */
  function AsSeen(v: string): string {
    if v == [] then [] else Seen(v[0]) + AsSeen(v[1..])
  }

  lemma {:induction false} ScanPlain(p: string, s: string, read: string)
    requires forall k :: 0 <= k < |p| ==> p[k] != '\\' && p[k] != '"'
    ensures Scan(p + s, read) == Scan(s, read + p)
  {
    if p == [] {
      assert p + s == s && read + p == read;
    } else {
      assert (p + s)[1..] == p[1..] + s;
      ScanPlain(p[1..], s, read + [p[0]]);
      assert read + [p[0]] + p[1..] == read + p;
    }
  }

  lemma HexIsPlain(n: nat)
    requires n < 16
    ensures HexDigit(n) != '\\' && HexDigit(n) != '"'
  {
  }

  lemma BehindIsPlain(c: char)
    requires NeedsEscape(c)
    ensures Behind(c) != [] && forall k :: 1 <= k < |Behind(c)| ==> Behind(c)[k] != '\\' && Behind(c)[k] != '"'
  {
    var n := c as int;
    HexIsPlain(n / 0x1000 % 16);
    HexIsPlain(n / 0x100 % 16);
    HexIsPlain(n / 0x10 % 16);
    HexIsPlain(n % 16);
  }

  lemma ScanOne(c: char, s: string, read: string)
    ensures Scan(Escaped(c) + s, read) == Scan(s, read + Seen(c))
  {
    if NeedsEscape(c) {
      BehindIsPlain(c);
      var b := Behind(c);
      assert (['\\'] + b + s)[2..] == b[1..] + s;
      ScanPlain(b[1..], s, read + [b[0]]);
      assert read + [b[0]] + b[1..] == read + b;
    } else {
      assert ([c] + s)[1..] == s;
    }
  }

  lemma PrintedFirst(v: string, rest: string)
    requires v != []
    ensures Printed(v, rest) == Escaped(v[0]) + Printed(v[1..], rest)
  {
  }

  lemma ScanEnd(rest: string, read: string)
    ensures Scan(Printed([], rest), read) == read
  {
    assert Printed([], rest) == ['"'] + rest;
  }

  lemma SeenFirst(read: string, v: string)
    requires v != []
    ensures (read + Seen(v[0])) + AsSeen(v[1..]) == read + AsSeen(v)
  {
  }

  lemma {:induction false} ScanEscaped(v: string, rest: string, read: string)
    ensures Scan(Printed(v, rest), read) == read + AsSeen(v)
  {
    if v == [] {
      ScanEnd(rest, read);
      assert read + AsSeen(v) == read;
    } else {
      var tail := Printed(v[1..], rest);
      assert Scan(Printed(v, rest), read) == Scan(tail, read + Seen(v[0])) by {
        PrintedFirst(v, rest);
        ScanOne(v[0], tail, read);
      }
      ScanEscaped(v[1..], rest, read + Seen(v[0]));
      SeenFirst(read, v);
    }
  }

  /** No control characters, none of the three special to HTML, and neither Unicode line separator: what is
      printed with no escapes but those of quotes and backslashes. */
  ghost predicate Simple(v: string) {
    forall k :: 0 <= k < |v| ==> v[k] >= ' ' && v[k] !in {'<', '>', '&'} && v[k] as int != 0x2028 && v[k] as int != 0x2029
  }

  lemma {:induction false} SeenAsIsIff(v: string)
    ensures AsSeen(v) == v <==> Simple(v)
  {
    if v != [] {
      var c := v[0];
      SeenAsIsIff(v[1..]);
      assert Simple(v) <==> Simple([c]) && Simple(v[1..]) by {
        assert forall k :: 0 < k < |v| ==> v[k] == v[1..][k - 1];
      }
      if NeedsEscape(c) && c != '"' && c != '\\' {
        assert AsSeen(v)[0] == Behind(c)[0] != c;
      } else {
        assert v == [c] + v[1..];
        assert AsSeen(v)[1..] == AsSeen(v[1..]);
      }
    }
  }

  // ---------------------------------------------------------------- the key pattern occurs where it was printed

  /** Inside an escaped value a quote stands only behind a backslash. */
  lemma {:induction false} QuotesAreEscaped(v: string, k: nat)
    requires k < |Escape(v)| && Escape(v)[k] == '"'
    ensures k > 0 && Escape(v)[k - 1] == '\\'
  {
    var e := Escaped(v[0]);
    if k < |e| {
      if NeedsEscape(v[0]) {
        BehindIsPlain(v[0]);
      }
    } else {
      QuotesAreEscaped(v[1..], k - |e|);
    }
  }

  /** A quote between an e and a colon, as at the end of "task_name":. */
  ghost predicate Ends(data: string, q: nat) {
    0 < q && q + 1 < |data| && data[q - 1] == 'e' && data[q] == '"' && data[q + 1] == ':'
  }

  lemma OccurrenceEnds(data: string, i: nat)
    requires OccursAt(data, Pattern("task_name"), i)
    ensures Ends(data, i + 10)
  {
    var p := Pattern("task_name");
    var s := data[i..i + |p|];
    assert s[9] == data[i + 9] && s[10] == data[i + 10] && s[11] == data[i + 11];
  }

  lemma NotInHead(rest: string, q: nat)
    requires q < |HEAD|
    ensures !Ends(HEAD + rest, q)
  {
    var data := HEAD + rest;
    assert data[q] == HEAD[q];
    if q > 0 {
      assert data[q - 1] == HEAD[q - 1];
    }
  }

  lemma NotInValue(v: string, rest: string, q: nat)
    requires |HEAD| <= q < |HEAD| + |Escape(v)|
    ensures !Ends(HEAD + Escape(v) + rest, q)
  {
    var e := Escape(v);
    var data := HEAD + e + rest;
    assert data[q] == e[q - |HEAD|];
    if e[q - |HEAD|] == '"' {
      QuotesAreEscaped(v, q - |HEAD|);
      assert data[q - 1] == e[q - 1 - |HEAD|];
    }
  }

  lemma NotBeforeKeyEnds(before: string, rest: string, q: nat)
    requires |before| <= q < |before| + 12
    ensures !Ends(before + MIDDLE + rest, q)
  {
    var data := before + MIDDLE + rest;
    assert data[q] == MIDDLE[q - |before|] && data[q + 1] == MIDDLE[q + 1 - |before|];
  }

  lemma NotEarlier(workflowID: string, tail: string, i: nat)
    requires i < |HEAD| + |Escape(workflowID)| + 2
    ensures !OccursAt(HEAD + Escape(workflowID) + MIDDLE + tail, Pattern("task_name"), i)
  {
    var e := Escape(workflowID);
    var data := HEAD + e + MIDDLE + tail;
    var q := i + 10;
    assert !Ends(data, q) by {
      if q < |HEAD| {
        assert data == HEAD + (e + MIDDLE + tail);
        NotInHead(e + MIDDLE + tail, q);
      } else if q < |HEAD| + |e| {
        assert data == HEAD + e + (MIDDLE + tail);
        NotInValue(workflowID, MIDDLE + tail, q);
      } else {
        NotBeforeKeyEnds(HEAD + e, tail, q);
      }
    }
    if OccursAt(data, Pattern("task_name"), i) {
      OccurrenceEnds(data, i);
    }
  }

  /** The task name's key occurs where it was printed, and nowhere before: neither in the first key, nor in
      the workflow ID, nor across the border of either. */
  lemma TaskNameKeyIsFirst(workflowID: string, tail: string)
    ensures FirstAt(HEAD + Escape(workflowID) + MIDDLE + tail, Pattern("task_name"), |HEAD| + |Escape(workflowID)| + 2)
  {
    var e := Escape(workflowID);
    var data := HEAD + e + MIDDLE + tail;
    var at := |HEAD| + |e| + 2;
    assert Pattern("task_name") == MIDDLE[2..14];
    assert data[at..at + 12] == MIDDLE[2..14];
    forall i | 0 <= i < at ensures !OccursAt(data, Pattern("task_name"), i) {
      NotEarlier(workflowID, tail, i);
    }
  }

  lemma QuotedValue(v: string, rest: string)
    ensures Quoted("\"" + Printed(v, rest)) == AsSeen(v)
  {
    assert ("\"" + Printed(v, rest))[1..] == Printed(v, rest);
    ScanEscaped(v, rest, "");
    assert "" + AsSeen(v) == AsSeen(v);
  }

  lemma PrintFromMiddle(workflowID: string, tail: string)
    ensures HEAD + Printed(workflowID, NEXT + tail) == HEAD + Escape(workflowID) + MIDDLE + tail
  {
    assert MIDDLE == "\"" + NEXT;
  }

  lemma BehindTaskNameKey(before: string, tail: string)
    ensures (before + MIDDLE + tail)[|before| + 14..] == "\"" + tail
  {
    assert MIDDLE[14..] == "\"";
  }

  /** The scanner reads the task name off any serialized task, whatever the workflow ID and all later
      fields hold, exactly when the name has no control characters, none of the three special to HTML and no line separator. */
  lemma TaskNameIsReadBackIff(workflowID: string, taskName: string, rest: string, value: string)
    requires Extracted(Print(workflowID, taskName, rest), "task_name", value)
    ensures value == taskName <==> Simple(taskName)
    ensures value == AsSeen(taskName)
  {
    var tail := Printed(taskName, rest);
    PrintFromMiddle(workflowID, tail);
    TaskNameKeyIsFirst(workflowID, tail);
    BehindTaskNameKey(HEAD + Escape(workflowID), tail);
    QuotedValue(taskName, rest);
    SeenAsIsIff(taskName);
  }

  lemma WorkflowKeyIsFirst(rest: string)
    ensures FirstAt(HEAD + rest, Pattern("workflow_id"), 1)
    ensures (HEAD + rest)[15..] == "\"" + rest
  {
    var data := HEAD + rest;
    var p := Pattern("workflow_id");
    assert HEAD[1..15] == p;
    assert data[1..15] == HEAD[1..15];
    assert data[0..14][0] == '{' && p[0] == '"';
    assert HEAD[15..] == "\"";
  }

  /** The same for the workflow ID, whatever all other fields hold. */
  lemma WorkflowIDIsReadBackIff(workflowID: string, taskName: string, rest: string, value: string)
    requires Extracted(Print(workflowID, taskName, rest), "workflow_id", value)
    ensures value == workflowID <==> Simple(workflowID)
    ensures value == AsSeen(workflowID)
  {
    var behind := NEXT + Printed(taskName, rest);
    WorkflowKeyIsFirst(Printed(workflowID, behind));
    QuotedValue(workflowID, behind);
    SeenAsIsIff(workflowID);
  }
}
