/** The rewrite of Kit's offer: lines between CRLFs, and one loopback candidate after every mid line of a section with a port. */
module Sdp {
  import opened Wrappers
  import opened Json

  // ------------------------------------------------------------ split and join

  /** strings.Split on CRLF: cut at every occurrence, from the left. */
  function Split(s: string): (lines: seq<string>)
    ensures lines != []
  {
    if s == "" then [""]
    else if "\r\n" <= s then [""] + Split(s[2..])
    else
      var rest := Split(s[1..]);
      [[s[0]] + rest[0]] + rest[1..]
  }

  function Join(lines: seq<string>): string {
    if lines == [] then ""
    else if |lines| == 1 then lines[0]
    else lines[0] + "\r\n" + Join(lines[1..])
  }

  predicate OneLine(s: string) { forall i :: 0 <= i < |s| - 1 && s[i] == '\r' ==> s[i + 1] != '\n' }

  predicate Lines(lines: seq<string>) { lines != [] && forall i :: 0 <= i < |lines| ==> OneLine(lines[i]) }

  lemma {:induction false} JoinInvertsSplit(s: string)
    ensures Join(Split(s)) == s
  {
    if s == "" {
    } else if "\r\n" <= s {
      JoinInvertsSplit(s[2..]);
      assert Split(s)[1..] == Split(s[2..]);
      assert s == s[..2] + s[2..];
    } else {
      JoinInvertsSplit(s[1..]);
      var rest := Split(s[1..]);
      assert Split(s)[1..] == rest[1..];
      assert s == [s[0]] + s[1..];
      if |rest| > 1 {
        assert Join(Split(s)) == [s[0]] + rest[0] + "\r\n" + Join(rest[1..]);
      }
    }
  }

  /** The first line of a text starts like the text, or is empty. */
  lemma FirstLineStart(s: string)
    ensures Split(s)[0] != "" ==> s != "" && Split(s)[0][0] == s[0]
  {
  }

  lemma {:induction false} SplitGivesLines(s: string)
    ensures Lines(Split(s))
  {
    if s == "" {
    } else if "\r\n" <= s {
      SplitGivesLines(s[2..]);
    } else {
      SplitGivesLines(s[1..]);
      var rest := Split(s[1..]);
      FirstLineStart(s[1..]);
      var first := [s[0]] + rest[0];
      assert |s| > 1 && s[0] == '\r' ==> s[1] != '\n';
      forall i | 0 <= i < |first| - 1 && first[i] == '\r'
        ensures first[i + 1] != '\n'
      {
        assert first[i + 1] == rest[0][i];
        if i > 0 {
          assert rest[0][i - 1] == '\r';
        }
      }
    }
  }

  lemma TailIsOneLine(l: string)
    requires l != "" && OneLine(l)
    ensures OneLine(l[1..])
  {
    forall i | 0 <= i < |l[1..]| - 1 && l[1..][i] == '\r'
      ensures l[1..][i + 1] != '\n'
    {
      assert l[i + 1] == '\r';
    }
  }

  lemma {:induction false} SplitLine(l: string)
    requires OneLine(l)
    ensures Split(l) == [l]
  {
    if l != "" {
      TailIsOneLine(l);
      SplitLine(l[1..]);
      assert |l| > 1 && l[0] == '\r' ==> l[1] != '\n';
      assert l == [l[0]] + l[1..];
    }
  }

  /** Even a line that ends in CR keeps its CR: the cut is at the CRLF that follows. */
  lemma {:induction false} SplitFirstLine(l: string, rest: string)
    requires OneLine(l)
    ensures Split(l + "\r\n" + rest) == [l] + Split(rest)
  {
    var s := l + "\r\n" + rest;
    if l == "" {
      assert s == "\r\n" + rest && s[2..] == rest;
    } else {
      TailIsOneLine(l);
      SplitFirstLine(l[1..], rest);
      assert s[1..] == l[1..] + "\r\n" + rest;
      assert s[0] == l[0] && s[1] == if |l| > 1 then l[1] else '\r';
      assert l == [l[0]] + l[1..];
    }
  }

  lemma {:induction false} SplitInvertsJoin(lines: seq<string>)
    requires Lines(lines)
    ensures Split(Join(lines)) == lines
  {
    if |lines| == 1 {
      SplitLine(lines[0]);
    } else {
      SplitInvertsJoin(lines[1..]);
      SplitFirstLine(lines[0], Join(lines[1..]));
      assert lines == [lines[0]] + lines[1..];
    }
  }

  // -------------------------------------------------------------------- scanning

  /** unicode.IsSpace. */
  predicate IsBlank(c: char) {
    '\t' <= c <= '\r' || c == ' ' || c == '\U{0085}' || c == '\U{00A0}' || c == '\U{1680}'
    || '\U{2000}' <= c <= '\U{200A}' || c == '\U{2028}' || c == '\U{2029}' || c == '\U{202F}' || c == '\U{205F}' || c == '\U{3000}'
  }

  function WordEnd(s: string): (n: nat)
    ensures n <= |s|
    ensures forall k :: 0 <= k < n ==> !IsBlank(s[k])
    ensures n < |s| ==> IsBlank(s[n])
  {
    if s == "" || IsBlank(s[0]) then 0 else 1 + WordEnd(s[1..])
  }

  /** strings.Fields: the runs of non-blank characters. */
  function Words(s: string): seq<string> {
    if s == "" then []
    else if IsBlank(s[0]) then Words(s[1..])
    else
      var n := WordEnd(s);
      [s[..n]] + Words(s[n..])
  }

  /** Sscanf("%d"): an optional sign, the longest run of digits, and no more than 64 bits; the rest is ignored. */
  function ScanInt(s: string): Option<int> {
    var i := if s != "" && (s[0] == '+' || s[0] == '-') then 1 else 0;
    var e := DigitsEnd(s, i);
    if e == i then None
    else
      var m: int := DigitsValue(s[i..e]);
      var n := if s[0] == '-' then -m else m;
      if -0x8000_0000_0000_0000 <= n < 0x8000_0000_0000_0000 then Some(n) else None
  }

  predicate IsMedia(line: string) { "m=" <= line }

  predicate IsMid(line: string) { "a=mid:" <= line }

  /** The port an m= line announces, `m=<media> <port> <proto> <fmts>`, if it scans. */
  function MediaPort(line: string): Option<int> {
    var words := Words(line);
    if |words| >= 2 then ScanInt(words[1]) else None
  }

  /** The value of mPort after these lines: an m= line that does not scan leaves it as it was. */
  function PortAfter(lines: seq<string>): int {
    if lines == [] then 0
    else
      var last := lines[|lines| - 1];
      if IsMedia(last) && MediaPort(last).Some? then MediaPort(last).value else PortAfter(lines[..|lines| - 1])
  }

  function Unwords(words: seq<string>): string {
    if words == [] then ""
    else if |words| == 1 then words[0]
    else words[0] + " " + Unwords(words[1..])
  }

  function CandidateWords(port: int): seq<string> {
    ["a=candidate:1", "1", "udp", "2122260223", "127.0.0.1", Decimal(port), "typ", "host"]
  }

  /** A host candidate on the loopback address. */
  function Candidate(port: int): string { Unwords(CandidateWords(port)) }

  // --------------------------------------------------------------------- rewrite

  datatype Line = Kept(text: string) | Injected(text: string)

  predicate Qualifies(before: seq<string>, line: string) { IsMid(line) && PortAfter(before) > 0 }

  /** Every line, and after a qualifying one a candidate for the port in force. */
  function Rewritten(lines: seq<string>): seq<Line> {
    if lines == [] then []
    else
      var before, last := lines[..|lines| - 1], lines[|lines| - 1];
      Rewritten(before) + [Kept(last)]
      + if Qualifies(before, last) then [Injected(Candidate(PortAfter(before)))] else []
  }

  function Texts(lines: seq<Line>): (r: seq<string>)
    ensures |r| == |lines|
    ensures forall i :: 0 <= i < |lines| ==> r[i] == lines[i].text
  {
    seq(|lines|, i requires 0 <= i < |lines| => lines[i].text)
  }

  function Rewrite(sdp: string): string { Join(Texts(Rewritten(Split(sdp)))) }

  /** The loop: the lines so far in `out`, and the port most recently scanned in `mPort`. */
  method RewriteKitOffer(sdp: string) returns (r: string)
    ensures r == Rewrite(sdp)
  {
    var lines := Split(sdp);
    var out: seq<string> := [];
    var mPort := 0;
    for i := 0 to |lines|
      invariant out == Texts(Rewritten(lines[..i]))
      invariant mPort == PortAfter(lines[..i])
    {
      var line := lines[i];
      assert lines[..i + 1][..i] == lines[..i];
      out := out + [line];
      if "m=" <= line {
        var fields := Words(line);
        if |fields| >= 2 {
          var port := ScanInt(fields[1]);
          if port.Some? {
            mPort := port.value;
          }
        }
        continue;
      }
      if "a=mid:" <= line && mPort > 0 {
        out := out + [Candidate(mPort)];
      }
    }
    assert lines[..|lines|] == lines;
    r := Join(out);
  }
}
