/** Lines of /proc/self/mountinfo: how the kernel prints them and how the driver reads them. */
module MountinfoSpec {
  import opened AttachmentTypes

  /** unicode.IsSpace. */
  predicate IsSpace(c: char) {
    var n := c as int;
    || 9 <= n <= 13 || n == 32 || n == 0x85 || n == 0xA0 || n == 0x1680 || 0x2000 <= n <= 0x200A
    || n == 0x2028 || n == 0x2029 || n == 0x202F || n == 0x205F || n == 0x3000
  }

  /** The words of `s`, where `word` has been read already. */
  function Split(s: string, word: string): seq<string> {
    var done := if word == [] then [] else [word];
    if s == [] then done
    else if IsSpace(s[0]) then done + Split(s[1..], [])
    else Split(s[1..], word + [s[0]])
  }

  /** strings.Fields. */
  function Fields(line: string): seq<string> {
    Split(line, [])
  }

  /** The four escapes, undone in one pass from left to right. */
  function Unescape(s: string): string {
    if s == [] then []
    else if |s| >= 4 && s[..4] == "\\040" then " " + Unescape(s[4..])
    else if |s| >= 4 && s[..4] == "\\011" then "\t" + Unescape(s[4..])
    else if |s| >= 4 && s[..4] == "\\012" then "\n" + Unescape(s[4..])
    else if |s| >= 4 && s[..4] == "\\134" then "\\" + Unescape(s[4..])
    else [s[0]] + Unescape(s[1..])
  }

  datatype MountInfo = MountInfo(source: string, target: string, fsType: string, options: string)

  /** The first field that is a lone dash, or the number of fields. */
  function Separator(fields: seq<string>): nat {
    if fields == [] then 0 else if fields[0] == "-" then 0 else 1 + Separator(fields[1..])
  }

  function ParseLine(line: string): Option<MountInfo> {
    var fields := Fields(line);
    var sep := Separator(fields);
    if |fields| < 10 || sep + 2 >= |fields| then None
    else Some(MountInfo(Unescape(fields[sep + 2]), Unescape(fields[4]), fields[sep + 1], fields[5]))
  }

  // ---- the kernel's side ----

  function EscapeChar(c: char): string {
    if c == ' ' then "\\040" else if c == '\t' then "\\011" else if c == '\n' then "\\012"
    else if c == '\\' then "\\134" else [c]
  }

  function Escape(s: string): string {
    if s == [] then [] else EscapeChar(s[0]) + Escape(s[1..])
  }

  function Join(words: seq<string>): string {
    if words == [] then [] else if |words| == 1 then words[0] else words[0] + " " + Join(words[1..])
  }

  /** The fields of section 3.5 of Documentation/filesystems/proc.rst. */
  datatype Entry = Entry(
    id: string, parent: string, device: string, root: string, mountPoint: string, options: string,
    optional: seq<string>, fsType: string, source: string, superOptions: string)

  function Words(e: Entry): seq<string> {
    [e.id, e.parent, e.device, Escape(e.root), Escape(e.mountPoint), e.options]
    + e.optional + ["-", e.fsType, Escape(e.source), e.superOptions]
  }

  function Print(e: Entry): string {
    Join(Words(e))
  }

  predicate Plain(w: string) {
    w != [] && forall i :: 0 <= i < |w| ==> !IsSpace(w[i])
  }

  /** A path with nothing to split on but what the kernel escapes. */
  predicate Path(p: string) {
    p != [] && forall i :: 0 <= i < |p| && IsSpace(p[i]) ==> p[i] in {' ', '\t', '\n'}
  }

  ghost predicate Printable(e: Entry) {
    && Plain(e.id) && Plain(e.parent) && Plain(e.device) && Plain(e.options) && Plain(e.fsType) && Plain(e.superOptions)
    && Path(e.root) && Path(e.mountPoint) && Path(e.source)
    && (forall i :: 0 <= i < |e.optional| ==> Plain(e.optional[i]) && e.optional[i] != "-")
    && "-" !in [e.id, e.parent, e.device, Escape(e.root), Escape(e.mountPoint), e.options]
  }

  lemma UnescapeOne(c: char, rest: string)
    ensures Unescape(EscapeChar(c) + rest) == [c] + Unescape(rest)
  {
    var s := EscapeChar(c) + rest;
    if c in {' ', '\t', '\n', '\\'} {
      assert s[..4] == EscapeChar(c) && s[4..] == rest;
    } else {
      assert s[0] == c && s[1..] == rest;
      assert |s| >= 4 ==> s[..4][0] == c;
    }
  }

  /** Reading undoes printing on every path. */
  lemma {:induction false} UnescapeEscape(p: string)
    ensures Unescape(Escape(p)) == p
  {
    if p != [] {
      UnescapeOne(p[0], Escape(p[1..]));
      UnescapeEscape(p[1..]);
    }
  }

  lemma {:induction false} EscapedIsPlain(p: string)
    requires forall i :: 0 <= i < |p| && IsSpace(p[i]) ==> p[i] in {' ', '\t', '\n'}
    ensures forall i :: 0 <= i < |Escape(p)| ==> !IsSpace(Escape(p)[i])
    ensures p != [] ==> Escape(p) != []
  {
    if p != [] {
      EscapedIsPlain(p[1..]);
      assert forall i :: 0 <= i < |EscapeChar(p[0])| ==> !IsSpace(EscapeChar(p[0])[i]);
    }
  }

  /** A plain word is read to its end. */
  lemma {:induction false} SplitWord(w: string, rest: string, read: string)
    requires forall i :: 0 <= i < |w| ==> !IsSpace(w[i])
    ensures Split(w + rest, read) == Split(rest, read + w)
  {
    if w == [] {
      assert w + rest == rest && read + w == read;
    } else {
      assert (w + rest)[1..] == w[1..] + rest && (w + rest)[0] == w[0];
      SplitWord(w[1..], rest, read + [w[0]]);
      assert read + [w[0]] + w[1..] == read + w;
    }
  }

  /** Splitting undoes joining. */
  lemma {:induction false} FieldsOfJoin(words: seq<string>)
    requires forall i :: 0 <= i < |words| ==> Plain(words[i])
    ensures Fields(Join(words)) == words
  {
    if words != [] {
      var w := words[0];
      if |words| == 1 {
        SplitWord(w, [], []);
        assert w + [] == w && [] + w == w;
      } else {
        var rest := " " + Join(words[1..]);
        SplitWord(w, rest, []);
        assert w + " " + Join(words[1..]) == w + rest && [] + w == w;
        assert rest[0] == ' ' && rest[1..] == Join(words[1..]);
        FieldsOfJoin(words[1..]);
        assert words == [w] + words[1..];
      }
    }
  }

  lemma {:induction false} SeparatorAfter(before: seq<string>, after: seq<string>)
    requires forall i :: 0 <= i < |before| ==> before[i] != "-"
    ensures Separator(before + ["-"] + after) == |before|
  {
    if before == [] {
      assert ([] + ["-"] + after)[0] == "-";
    } else {
      assert (before + ["-"] + after)[1..] == before[1..] + ["-"] + after;
      SeparatorAfter(before[1..], after);
    }
  }

  /** Every entry the kernel can print in this form comes back: source, target, type and options. */
  lemma MountinfoRoundTrip(e: Entry)
    requires Printable(e)
    ensures ParseLine(Print(e)) == Some(MountInfo(e.source, e.mountPoint, e.fsType, e.options))
  {
    var head := [e.id, e.parent, e.device, Escape(e.root), Escape(e.mountPoint), e.options];
    var tail := [e.fsType, Escape(e.source), e.superOptions];
    var words := Words(e);
    EscapedIsPlain(e.root);
    EscapedIsPlain(e.mountPoint);
    EscapedIsPlain(e.source);
    assert words == head + e.optional + ["-"] + tail;
    assert Plain("-");
    FieldsOfJoin(words);
    SeparatorAfter(head + e.optional, tail);
    UnescapeEscape(e.mountPoint);
    UnescapeEscape(e.source);
  }
}

module Mountinfo {
  import opened AttachmentTypes
  import opened MountinfoSpec

  method ParseMountInfoLine(line: string) returns (info: Option<MountInfo>)
    ensures info == ParseLine(line)
  {
    var fields := Fields(line);
    if |fields| < 10 {
      return None;
    }
    var separatorIndex := -1;
    var i := 0;
    while i < |fields|
      invariant 0 <= i <= |fields|
      invariant separatorIndex == -1 && Separator(fields) == i + Separator(fields[i..])
    {
      if fields[i] == "-" {
        separatorIndex := i;
        break;
      }
      assert fields[i..][1..] == fields[i + 1..];
      i := i + 1;
    }
    if separatorIndex == -1 || separatorIndex + 2 >= |fields| {
      return None;
    }
    var target, options, fsType := Unescape(fields[4]), fields[5], fields[separatorIndex + 1];
    info := Some(MountInfo(Unescape(fields[separatorIndex + 2]), target, fsType, options));
  }
}
