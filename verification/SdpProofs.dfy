/** Placement, erasure and re-reading of the injected candidates, for every offer text. */
module SdpProofs {
  import opened Wrappers
  import opened Json
  import opened Sdp

  // ----------------------------------------------------------------- line by line

  /** One more line: it is kept, and a qualifying one is followed by its candidate. */
  lemma RewrittenStep(lines: seq<string>)
    requires lines != []
    ensures var before, last := lines[..|lines| - 1], lines[|lines| - 1];
            var more := if Qualifies(before, last) then [last, Candidate(PortAfter(before))] else [last];
            && |Rewritten(lines)| == |Rewritten(before)| + |more|
            && Texts(Rewritten(lines)) == Texts(Rewritten(before)) + more
  {
    hide Candidate, Qualifies, PortAfter;
    var before, last := lines[..|lines| - 1], lines[|lines| - 1];
    var kept := Rewritten(before) + [Kept(last)];
    assert kept + [] == kept;
  }

  lemma PortAfterSnoc(lines: seq<string>, l: string)
    ensures PortAfter(lines + [l]) == if IsMedia(l) && MediaPort(l).Some? then MediaPort(l).value else PortAfter(lines)
  {
    hide IsMedia, MediaPort;
    assert (lines + [l])[..|lines|] == lines;
  }

  predicate LastQualifies(lines: seq<string>) {
    lines != [] && Qualifies(lines[..|lines| - 1], lines[|lines| - 1])
  }

  lemma LastQualifiesSnoc(lines: seq<string>, l: string)
    ensures LastQualifies(lines + [l]) <==> Qualifies(lines, l)
  {
    hide Qualifies;
    assert (lines + [l])[..|lines|] == lines;
  }

  // ------------------------------------------------------------------------ erasure

  /** Without the line that follows a mid line with a positive port in force. */
  function Erased(lines: seq<string>): seq<string> {
    if lines == [] then []
    else
      var before := lines[..|lines| - 1];
      if LastQualifies(before) then Erased(before) else Erased(before) + [lines[|lines| - 1]]
  }

  lemma ErasedSnoc(lines: seq<string>, l: string)
    ensures Erased(lines + [l]) == if LastQualifies(lines) then Erased(lines) else Erased(lines) + [l]
  {
    hide LastQualifies;
    assert (lines + [l])[..|lines|] == lines;
  }

  lemma ErasureStep(texts: seq<string>, before: seq<string>, last: string)
    requires Erased(texts) == before && !LastQualifies(texts) && PortAfter(texts) == PortAfter(before)
    ensures var after := texts + if Qualifies(before, last) then [last, Candidate(PortAfter(before))] else [last];
            Erased(after) == before + [last] && !LastQualifies(after) && PortAfter(after) == PortAfter(before + [last])
  {
    var c := Candidate(PortAfter(before));
    ErasedSnoc(texts, last);
    LastQualifiesSnoc(texts, last);
    PortAfterSnoc(texts, last);
    PortAfterSnoc(before, last);
    ErasedSnoc(texts + [last], c);
    LastQualifiesSnoc(texts + [last], c);
    PortAfterSnoc(texts + [last], c);
    if Qualifies(before, last) {
      CandidateIsLine(PortAfter(before));
    }
    hide Erased, PortAfter, LastQualifies, Candidate, IsMedia, IsMid, MediaPort;
    assert texts + [last, c] == texts + [last] + [c];
  }

  /** The rewritten lines, read as plain text: the same port in force at the end, and erasing them gives back the input. */
  lemma {:induction false} ErasureIsInput(lines: seq<string>)
    ensures var texts := Texts(Rewritten(lines));
            Erased(texts) == lines && !LastQualifies(texts) && PortAfter(texts) == PortAfter(lines)
  {
    if lines != [] {
      var before, last := lines[..|lines| - 1], lines[|lines| - 1];
      ErasureIsInput(before);
      RewrittenStep(lines);
      assert lines == before + [last];
      hide *;
      ErasureStep(Texts(Rewritten(before)), before, last);
    }
  }

  /** In the output text, erasing the line after every mid line with a positive port in force gives back the input text. */
  lemma RewriteErasesToInput(sdp: string)
    ensures Join(Erased(Split(Rewrite(sdp)))) == sdp
  {
    RewriteSplitsBack(sdp);
    ErasureIsInput(Split(sdp));
    JoinInvertsSplit(sdp);
  }

  /** So no two offers are rewritten to one. */
  lemma RewriteIsInjective(a: string, b: string)
    requires Rewrite(a) == Rewrite(b)
    ensures a == b
  {
    RewriteErasesToInput(a);
    RewriteErasesToInput(b);
  }

  // -------------------------------------------------------------------- placement

  /** Among the first `n` lines no m= line after the j-th has a port that scans. */
  predicate LatestAt(lines: seq<string>, n: nat, j: nat)
    requires n <= |lines|
  {
    forall k :: j < k < n && "m=" <= lines[k] ==> MediaPort(lines[k]).None?
  }

  /** Among the first `n` lines the latest m= line whose port scans announces `port`. */
  ghost predicate MostRecentPort(lines: seq<string>, n: nat, port: int)
    requires n <= |lines|
  {
    exists j: nat :: j < n && LatestAt(lines, n, j) && "m=" <= lines[j] && MediaPort(lines[j]) == Some(port)
  }

  lemma MostRecentIsLast(lines: seq<string>, n: nat, port: int)
    requires 0 < n <= |lines| && IsMedia(lines[n - 1]) && MediaPort(lines[n - 1]).Some?
    ensures MostRecentPort(lines, n, port) <==> MediaPort(lines[n - 1]) == Some(port)
  {
    hide MediaPort;
    assert LatestAt(lines, n, n - 1);
    if MostRecentPort(lines, n, port) {
      var j: nat :| j < n && LatestAt(lines, n, j) && "m=" <= lines[j] && MediaPort(lines[j]) == Some(port);
      assert j == n - 1;
    }
  }

  lemma {:induction false} PortAfterIsMostRecent(lines: seq<string>, n: nat, port: int)
    requires n <= |lines| && port != 0
    ensures PortAfter(lines[..n]) == port <==> MostRecentPort(lines, n, port)
  {
    hide MediaPort;
    if n > 0 {
      assert lines[..n][..n - 1] == lines[..n - 1] && lines[..n][n - 1] == lines[n - 1];
      if IsMedia(lines[n - 1]) && MediaPort(lines[n - 1]).Some? {
        MostRecentIsLast(lines, n, port);
      } else {
        PortAfterIsMostRecent(lines, n - 1, port);
        MostRecentStays(lines, n, port);
      }
    }
  }

  lemma LatestStays(lines: seq<string>, n: nat, j: nat)
    requires 0 < n <= |lines| && !("m=" <= lines[n - 1] && MediaPort(lines[n - 1]).Some?)
    ensures LatestAt(lines, n, j) <==> LatestAt(lines, n - 1, j)
  {
    hide MediaPort;
  }

  lemma MostRecentStays(lines: seq<string>, n: nat, port: int)
    requires 0 < n <= |lines| && !(IsMedia(lines[n - 1]) && MediaPort(lines[n - 1]).Some?)
    ensures MostRecentPort(lines, n, port) <==> MostRecentPort(lines, n - 1, port)
  {
    hide MediaPort, LatestAt;
    if MostRecentPort(lines, n - 1, port) {
      var j: nat :| j < n - 1 && LatestAt(lines, n - 1, j) && "m=" <= lines[j] && MediaPort(lines[j]) == Some(port);
      LatestStays(lines, n, j);
    }
    if MostRecentPort(lines, n, port) {
      var j: nat :| j < n && LatestAt(lines, n, j) && "m=" <= lines[j] && MediaPort(lines[j]) == Some(port);
      LatestStays(lines, n, j);
    }
  }

  lemma UnwordsStep(word: string, words: seq<string>)
    requires words != []
    ensures Unwords([word] + words) == word + (" " + Unwords(words))
  {
    assert ([word] + words)[1..] == words;
  }

  lemma CandidateText(port: int)
    ensures Candidate(port) == "a=candidate:1 1 udp 2122260223 127.0.0.1 " + Decimal(port) + " typ host"
  {
    var d := Decimal(port);
    hide Decimal;
    UnwordsStep("typ", ["host"]);
    assert Unwords(["host"]) == "host";
    UnwordsStep(d, ["typ", "host"]);
    UnwordsStep("127.0.0.1", [d, "typ", "host"]);
    UnwordsStep("2122260223", ["127.0.0.1", d, "typ", "host"]);
    UnwordsStep("udp", ["2122260223", "127.0.0.1", d, "typ", "host"]);
    UnwordsStep("1", ["udp", "2122260223", "127.0.0.1", d, "typ", "host"]);
    UnwordsStep("a=candidate:1", ["1", "udp", "2122260223", "127.0.0.1", d, "typ", "host"]);
    var tail := d + (" " + ("typ" + (" " + "host")));
    assert CandidateWords(port) == ["a=candidate:1"] + (["1"] + (["udp"] + (["2122260223"] + (["127.0.0.1"] + ([d] + (["typ"] + ["host"]))))));
    hide Unwords;
    TypHost(d);
    Spaced("127.0.0.1", tail);
    Spaced("2122260223", "127.0.0.1 " + tail);
    Spaced("udp", "2122260223 " + ("127.0.0.1 " + tail));
    Spaced("1", "udp " + ("2122260223 " + ("127.0.0.1 " + tail)));
    Spaced("a=candidate:1", "1 " + ("udp " + ("2122260223 " + ("127.0.0.1 " + tail))));
    hide *;
    assert "127.0.0.1" + " " == "127.0.0.1 " && "2122260223" + " " == "2122260223 " && "udp" + " " == "udp ";
    assert "1" + " " == "1 " && "a=candidate:1" + " " == "a=candidate:1 ";
    Prefixes("a=candidate:1 ", "1 ", "udp ", "2122260223 ", "127.0.0.1 ", tail);
    FixedPart();
    Assoc("a=candidate:1 1 udp 2122260223 127.0.0.1 ", d, " typ host");
  }

  lemma TypHost(d: string)
    ensures d + (" " + ("typ" + (" " + "host"))) == d + " typ host"
  {
    assert "typ" + (" " + "host") == "typ host";
    assert " " + "typ host" == " typ host";
  }

  lemma Spaced(word: string, tail: string)
    ensures word + (" " + tail) == (word + " ") + tail
  {
  }

  lemma Assoc(a: string, b: string, c: string)
    ensures a + (b + c) == a + b + c
  {
  }

  lemma Prefixes(a: string, b: string, c: string, d: string, e: string, tail: string)
    ensures a + (b + (c + (d + (e + tail)))) == (a + b + c + d + e) + tail
  {
    Assoc(a, b, c + (d + (e + tail)));
    Assoc(a + b, c, d + (e + tail));
    Assoc(a + b + c, d, e + tail);
    Assoc(a + b + c + d, e, tail);
  }

  lemma FixedPart()
    ensures "a=candidate:1 " + "1 " + "udp " + "2122260223 " + "127.0.0.1 " == "a=candidate:1 1 udp 2122260223 127.0.0.1 "
  {
  }

  /** Where the i-th input line ends up. */
  function Place(lines: seq<string>, i: nat): nat
    requires i <= |lines|
  {
    |Rewritten(lines[..i])|
  }

  lemma {:induction false} RewrittenPrefix(lines: seq<string>, n: nat)
    requires n <= |lines|
    ensures Rewritten(lines[..n]) <= Rewritten(lines)
    decreases |lines|
  {
    if n < |lines| {
      var before := lines[..|lines| - 1];
      RewrittenPrefix(before, n);
      assert before[..n] == lines[..n];
    } else {
      assert lines[..n] == lines;
    }
  }

  /**
   Line by line: the i-th line is kept at its place; it is followed by an
   injection exactly when it is a mid line and the most recent port that scanned
   is positive, and then the injection names that port.
   */
  lemma InjectionIsExact(lines: seq<string>, i: nat)
    requires i < |lines|
    ensures Place(lines, i) < |Rewritten(lines)| && Rewritten(lines)[Place(lines, i)] == Kept(lines[i])
    ensures Place(lines, i + 1) == Place(lines, i) + 2 <==>
            "a=mid:" <= lines[i] && exists port :: port > 0 && MostRecentPort(lines, i, port)
    ensures Place(lines, i + 1) == Place(lines, i) + 1 || Place(lines, i + 1) == Place(lines, i) + 2
    ensures forall port :: port > 0 && MostRecentPort(lines, i, port) && "a=mid:" <= lines[i] ==>
            Place(lines, i) + 1 < |Rewritten(lines)| && Rewritten(lines)[Place(lines, i) + 1]
              == Injected("a=candidate:1 1 udp 2122260223 127.0.0.1 " + Decimal(port) + " typ host")
  {
    assert lines[..i + 1][..i] == lines[..i];
    RewrittenPrefix(lines, i + 1);
    var r := Rewritten(lines[..i + 1]);
    assert r == Rewritten(lines)[..|r|];
    var port := PortAfter(lines[..i]);
    if port > 0 {
      PortAfterIsMostRecent(lines, i, port);
    }
    forall p | p > 0 && MostRecentPort(lines, i, p)
      ensures p == port && Candidate(p) == "a=candidate:1 1 udp 2122260223 127.0.0.1 " + Decimal(p) + " typ host"
    {
      PortAfterIsMostRecent(lines, i, p);
      CandidateText(p);
    }
    hide MostRecentPort, Candidate, PortAfter, MediaPort, Decimal;
  }

  // ------------------------------------------------------------------- re-reading

  lemma DecimalNatScans(n: nat)
    requires n < 0x8000_0000_0000_0000
    ensures ScanInt(DecimalNat(n)) == Some(n)
  {
    DecimalNatValue(n);
    DigitsEndAll(DecimalNat(n), 0);
    assert DecimalNat(n)[0..|DecimalNat(n)|] == DecimalNat(n);
  }

  predicate IsWord(w: string) { w != "" && forall k :: 0 <= k < |w| ==> !IsBlank(w[k]) }

  lemma {:induction false} WordEndOf(w: string, rest: string)
    requires (forall k :: 0 <= k < |w| ==> !IsBlank(w[k])) && (rest == "" || IsBlank(rest[0]))
    ensures WordEnd(w + rest) == |w|
  {
    if w != "" {
      assert (w + rest)[1..] == w[1..] + rest;
      WordEndOf(w[1..], rest);
    } else {
      assert w + rest == rest;
    }
  }

  lemma {:induction false} WordsInvertUnwords(words: seq<string>)
    requires forall i :: 0 <= i < |words| ==> IsWord(words[i])
    ensures Words(Unwords(words)) == words
  {
    if words != [] {
      var w, rest := words[0], words[1..];
      var s := Unwords(words);
      var after := if rest == [] then "" else " " + Unwords(rest);
      assert s == w + after;
      WordEndOf(w, after);
      assert s[..|w|] == w && s[|w|..] == after && s[0] == w[0];
      if rest != [] {
        WordsInvertUnwords(rest);
        assert after[1..] == Unwords(rest);
      }
      assert words == [w] + rest;
    }
  }

  /** What unicode.IsSpace accepts. */
  predicate White(s: string) {
    forall k :: 0 <= k < |s| ==>
      s[k] in {' ', '\t', '\n', '\r', '\U{000B}', '\U{000C}', '\U{0085}', '\U{00A0}', '\U{1680}', '\U{2028}', '\U{2029}', '\U{202F}', '\U{205F}', '\U{3000}'}
      || '\U{2000}' <= s[k] <= '\U{200A}'
  }

  /** The words with white space before, between and after them. */
  function Spread(words: seq<string>, gaps: seq<string>): string
    requires |gaps| == |words| + 1
  {
    if words == [] then gaps[0] else gaps[0] + (words[0] + Spread(words[1..], gaps[1..]))
  }

  lemma {:induction false} GapIsSkipped(gap: string, s: string)
    requires White(gap)
    ensures Words(gap + s) == Words(s)
  {
    if gap == "" {
      assert gap + s == s;
    } else {
      assert (gap + s)[1..] == gap[1..] + s;
      GapIsSkipped(gap[1..], s);
    }
  }

  lemma WordIsTaken(w: string, rest: string)
    requires IsWord(w) && (rest == "" || IsBlank(rest[0]))
    ensures Words(w + rest) == [w] + Words(rest)
  {
    WordEndOf(w, rest);
    assert (w + rest)[..|w|] == w && (w + rest)[|w|..] == rest && (w + rest)[0] == w[0];
  }

  /** Fields finds the words whatever white space there is around and between them, as long as there is some between. */
  lemma {:induction false} FieldsAreFound(words: seq<string>, gaps: seq<string>)
    requires |gaps| == |words| + 1
    requires forall i :: 0 <= i < |words| ==> IsWord(words[i])
    requires forall i :: 0 <= i < |gaps| ==> White(gaps[i]) && (0 < i < |words| ==> gaps[i] != "")
    ensures Words(Spread(words, gaps)) == words
  {
    if words == [] {
      GapIsSkipped(gaps[0], "");
      assert gaps[0] + "" == gaps[0];
    } else {
      var rest := Spread(words[1..], gaps[1..]);
      GapIsSkipped(gaps[0], words[0] + rest);
      FieldsAreFound(words[1..], gaps[1..]);
      if rest != "" {
        RestStartsWhite(words[1..], gaps[1..]);
      }
      WordIsTaken(words[0], rest);
      assert words == [words[0]] + words[1..];
    }
  }

  lemma RestStartsWhite(words: seq<string>, gaps: seq<string>)
    requires |gaps| == |words| + 1 && Spread(words, gaps) != ""
    requires White(gaps[0]) && (words != [] ==> gaps[0] != "")
    ensures IsBlank(Spread(words, gaps)[0])
  {
    assert Spread(words, gaps)[0] == gaps[0][0];
  }

  /** The port of a media line is its second field, if there is one. */
  lemma MediaPortIsSecondField(words: seq<string>, gaps: seq<string>)
    requires |gaps| == |words| + 1
    requires forall i :: 0 <= i < |words| ==> IsWord(words[i])
    requires forall i :: 0 <= i < |gaps| ==> White(gaps[i]) && (0 < i < |words| ==> gaps[i] != "")
    ensures MediaPort(Spread(words, gaps)) == if |words| < 2 then None else ScanInt(words[1])
  {
    FieldsAreFound(words, gaps);
    hide ScanInt, Spread, IsWord, White;
  }

  lemma {:induction false} DigitsEndHere(s: string, i: nat, e: nat)
    requires i <= e <= |s| && (forall k :: i <= k < e ==> IsDigit(s[k])) && (e < |s| ==> !IsDigit(s[e]))
    ensures DigitsEnd(s, i) == e
    decreases e - i
  {
    if i < e {
      DigitsEndHere(s, i + 1, e);
    }
  }

  lemma Middle(a: string, b: string, c: string, s: string)
    requires s == a + b + c
    ensures s[|a|..|a| + |b|] == b && s[|a| + |b|..] == c && (forall k :: 0 <= k < |b| ==> s[|a| + k] == b[k])
  {
  }

  lemma NumberIsFound(sign: string, digits: string, rest: string, s: string)
    requires AllDigits(digits) && (rest == "" || !IsDigit(rest[0])) && s == sign + digits + rest
    ensures var e := |sign| + |digits|; DigitsEnd(s, |sign|) == e && s[|sign|..e] == digits
  {
    hide DigitsEnd, DigitsValue;
    Middle(sign, digits, rest, s);
    var i, e := |sign|, |sign| + |digits|;
    assert e < |s| ==> s[e] == rest[0];
    forall k | i <= k < e
      ensures IsDigit(s[k])
    {
      assert s[i + (k - i)] == digits[k - i];
    }
    DigitsEndHere(s, i, e);
  }

  lemma ScanIntIs(s: string, i: nat, e: nat)
    requires i < e <= |s| && DigitsEnd(s, i) == e && i == if s[0] == '+' || s[0] == '-' then 1 else 0
    ensures AllDigits(s[i..e])
    ensures var n := if s[0] == '-' then 0 - DigitsValue(s[i..e]) else DigitsValue(s[i..e]);
            ScanInt(s) == if -0x8000_0000_0000_0000 <= n < 0x8000_0000_0000_0000 then Some(n) else None
  {
    hide DigitsEnd, DigitsValue;
  }

  /** A number is read up to its last digit, whatever follows; out of 64 bits it is none. */
  lemma ScanIntReads(sign: string, digits: string, rest: string)
    requires sign == "" || sign == "+" || sign == "-"
    requires digits != "" && AllDigits(digits) && (rest == "" || !IsDigit(rest[0]))
    ensures var n: int := DigitsValue(digits);
            ScanInt(sign + digits + rest)
              == if sign == "-" then (if n <= 0x8000_0000_0000_0000 then Some(-n) else None)
                 else (if n < 0x8000_0000_0000_0000 then Some(n) else None)
  {
    hide DigitsEnd, DigitsValue, ScanInt;
    var s := sign + digits + rest;
    NumberIsFound(sign, digits, rest, s);
    assert s[0] == if sign == "" then digits[0] else sign[0];
    ScanIntIs(s, |sign|, |sign| + |digits|);
  }

  /** Without a digit at the front, a sign aside, there is no number. */
  lemma ScanIntNeedsDigits(sign: string, rest: string)
    requires sign == "" || sign == "+" || sign == "-"
    requires rest == "" || !IsDigit(rest[0])
    requires sign == "" && rest != "" ==> rest[0] != '+' && rest[0] != '-'
    ensures ScanInt(sign + rest) == None
  {
    var s := sign + rest;
    assert sign != "" ==> s[0] == sign[0];
    assert sign == "" ==> s == rest;
    assert |s| > |sign| ==> s[|sign|] == rest[0];
  }

  lemma CandidateWordsAreWords(port: nat)
    ensures forall i :: 0 <= i < |CandidateWords(port)| ==> IsWord(CandidateWords(port)[i])
  {
    DecimalNatValue(port);
  }

  /** The port is the sixth field of the candidate line, and reads back as the port it was printed from. */
  lemma CandidateNamesPort(port: nat)
    requires port < 0x8000_0000_0000_0000
    ensures Words(Candidate(port)) == CandidateWords(port) && ScanInt(Words(Candidate(port))[5]) == Some(port)
  {
    CandidateWordsAreWords(port);
    WordsInvertUnwords(CandidateWords(port));
    DecimalNatScans(port);
  }

  lemma {:induction false} PortsAre64Bit(lines: seq<string>)
    ensures -0x8000_0000_0000_0000 <= PortAfter(lines) < 0x8000_0000_0000_0000
  {
    if lines != [] {
      PortsAre64Bit(lines[..|lines| - 1]);
    }
  }

  /** An injected line names, in a form that reads back, the most recent port. */
  lemma InjectionNamesPort(lines: seq<string>, i: nat, port: int)
    requires i < |lines| && IsMid(lines[i]) && port > 0 && MostRecentPort(lines, i, port)
    ensures Place(lines, i) + 1 < |Rewritten(lines)|
    ensures var words := Words(Rewritten(lines)[Place(lines, i) + 1].text); |words| == 8 && ScanInt(words[5]) == Some(port)
  {
    InjectionIsExact(lines, i);
    CandidateText(port);
    PortAfterIsMostRecent(lines, i, port);
    PortsAre64Bit(lines[..i]);
    CandidateNamesPort(port);
  }

  lemma {:induction false} UnwordsHasNoBreak(words: seq<string>)
    requires forall i :: 0 <= i < |words| ==> IsWord(words[i])
    ensures forall k :: 0 <= k < |Unwords(words)| ==> Unwords(words)[k] != '\r'
  {
    if |words| > 1 {
      UnwordsHasNoBreak(words[1..]);
    }
  }

  lemma CandidateIsLine(port: nat)
    ensures OneLine(Candidate(port)) && !IsMedia(Candidate(port)) && !IsMid(Candidate(port))
  {
    CandidateWordsAreWords(port);
    UnwordsHasNoBreak(CandidateWords(port));
    var c := Candidate(port);
    assert c[0] == CandidateWords(port)[0][0] && c[2] == CandidateWords(port)[0][2];
  }

  lemma {:induction false} RewrittenAreLines(lines: seq<string>)
    requires forall i :: 0 <= i < |lines| ==> OneLine(lines[i])
    ensures forall i :: 0 <= i < |Rewritten(lines)| ==> OneLine(Texts(Rewritten(lines))[i])
    ensures |Rewritten(lines)| >= |lines|
  {
    if lines != [] {
      var before := lines[..|lines| - 1];
      RewrittenAreLines(before);
      RewrittenStep(lines);
      if PortAfter(before) > 0 {
        CandidateIsLine(PortAfter(before));
      }
      hide OneLine, Rewritten, Candidate;
    }
  }

  /** Splitting the rewritten offer again yields exactly the lines that were built. */
  lemma RewriteSplitsBack(sdp: string)
    ensures Split(Rewrite(sdp)) == Texts(Rewritten(Split(sdp)))
  {
    hide OneLine, Rewritten;
    SplitGivesLines(sdp);
    RewrittenAreLines(Split(sdp));
    SplitInvertsJoin(Texts(Rewritten(Split(sdp))));
  }

  // ------------------------------------------------------- when nothing is injected

  predicate AnyQualifies(lines: seq<string>) { exists i :: 0 <= i < |lines| && Qualifies(lines[..i], lines[i]) }

  lemma {:induction false} LengthGrowsWithInjections(lines: seq<string>)
    ensures |Rewritten(lines)| >= |lines|
    ensures |Rewritten(lines)| == |lines| <==> !AnyQualifies(lines)
  {
    if lines != [] {
      LengthGrowsWithInjections(lines[..|lines| - 1]);
      RewrittenStep(lines);
      hide Rewritten;
      AnyQualifiesStep(lines);
    }
  }

  lemma AnyQualifiesStep(lines: seq<string>)
    requires lines != []
    ensures AnyQualifies(lines) <==> AnyQualifies(lines[..|lines| - 1]) || LastQualifies(lines)
  {
    hide Qualifies;
    var n := |lines| - 1;
    var before := lines[..n];
    if AnyQualifies(before) {
      var i :| 0 <= i < n && Qualifies(before[..i], before[i]);
      assert lines[..i] == before[..i] && Qualifies(lines[..i], lines[i]);
    }
    if AnyQualifies(lines) {
      var i :| 0 <= i < |lines| && Qualifies(lines[..i], lines[i]);
      if i < n {
        assert lines[..i] == before[..i] && Qualifies(before[..i], before[i]);
      }
    }
  }

  lemma {:induction false} UnqualifiedTexts(lines: seq<string>)
    requires !AnyQualifies(lines)
    ensures Texts(Rewritten(lines)) == lines
  {
    if lines != [] {
      AnyQualifiesStep(lines);
      UnqualifiedTexts(lines[..|lines| - 1]);
      RewrittenStep(lines);
      hide Rewritten, Texts, AnyQualifies, Qualifies;
    }
  }

  /** The rewrite leaves an offer unchanged exactly when no mid line of it has a positive port in force. */
  lemma RewriteIsIdentityExactly(sdp: string)
    ensures Rewrite(sdp) == sdp <==> !AnyQualifies(Split(sdp))
  {
    var lines := Split(sdp);
    LengthGrowsWithInjections(lines);
    RewriteSplitsBack(sdp);
    if !AnyQualifies(lines) {
      UnqualifiedTexts(lines);
      JoinInvertsSplit(sdp);
    }
  }

  /** An injected line is neither media nor mid, so the output qualifies where the input does, and nowhere else. */
  lemma {:induction false} OutputQualifiesAlike(lines: seq<string>)
    ensures AnyQualifies(Texts(Rewritten(lines))) <==> AnyQualifies(lines)
  {
    if lines != [] {
      var before, last := lines[..|lines| - 1], lines[|lines| - 1];
      var texts := Texts(Rewritten(before));
      OutputQualifiesAlike(before);
      RewrittenStep(lines);
      ErasureIsInput(before);
      AnyQualifiesStep(lines);
      AnyQualifiesSnoc(texts, last);
      if Qualifies(before, last) {
        CandidateIsLine(PortAfter(before));
        AnyQualifiesSnoc(texts + [last], Candidate(PortAfter(before)));
        assert texts + [last, Candidate(PortAfter(before))] == texts + [last] + [Candidate(PortAfter(before))];
      }
      hide Rewritten, Texts, AnyQualifies, PortAfter, Candidate, IsMid;
    }
  }

  lemma AnyQualifiesSnoc(lines: seq<string>, l: string)
    ensures AnyQualifies(lines + [l]) <==> AnyQualifies(lines) || Qualifies(lines, l)
  {
    AnyQualifiesStep(lines + [l]);
    LastQualifiesSnoc(lines, l);
    hide AnyQualifies, LastQualifies;
    assert (lines + [l])[..|lines|] == lines;
  }

  /** It does not look for an existing candidate: a second rewrite injects again whenever any mid line has a positive port in force. */
  lemma RewriteIsNotIdempotent(sdp: string)
    ensures Rewrite(Rewrite(sdp)) == Rewrite(sdp) <==> !AnyQualifies(Split(sdp))
  {
    RewriteIsIdentityExactly(Rewrite(sdp));
    RewriteSplitsBack(sdp);
    OutputQualifiesAlike(Split(sdp));
  }

  lemma OneSection(media: string, mid: string, port: int, rest: string)
    requires IsMedia(media) && !IsMid(media) && MediaPort(media) == Some(port) && port > 0
    requires IsMid(mid) && !IsMedia(mid) && !IsMid(rest)
    ensures Texts(Rewritten([media, mid, rest])) == [media, mid, Candidate(port), rest]
  {
    PortAfterSnoc([], media);
    PortAfterSnoc([media], mid);
    hide IsMedia, IsMid, MediaPort, PortAfter, Candidate;
    assert [] + [media] == [media] && [media] + [mid] == [media, mid];
    NothingRewritten();
    RewrittenStep([media]);
    RewrittenStep([media, mid]);
    RewrittenStep([media, mid, rest]);
    assert [media][..0] == [] && [media, mid][..1] == [media] && [media, mid, rest][..2] == [media, mid];
    hide Rewritten, Texts;
    assert !Qualifies([], media) && Qualifies([media], mid) && !Qualifies([media, mid], rest);
  }

  /** A section that already offers the very candidate: it gets it a second time. */
  lemma CandidateIsRepeated(port: nat)
    requires 0 < port < 0x8000_0000_0000_0000
    ensures var media := Unwords(["m=video", Decimal(port), "UDP/TLS/RTP/SAVPF", "96"]);
            Split(Rewrite(Join([media, "a=mid:0", Candidate(port)]))) == [media, "a=mid:0", Candidate(port), Candidate(port)]
  {
    var media, mid, c := Unwords(["m=video", Decimal(port), "UDP/TLS/RTP/SAVPF", "96"]), "a=mid:0", Candidate(port);
    MediaLineScans(port);
    CandidateIsLine(port);
    assert OneLine(mid) && IsMid(mid) && !IsMedia(mid);
    hide Candidate, Decimal, Unwords, MediaPort, IsMedia, IsMid, OneLine, Split, Join, Rewritten, Texts, Rewrite;
    SplitInvertsJoin([media, mid, c]);
    RewriteSplitsBack(Join([media, mid, c]));
    OneSection(media, mid, port, c);
  }

  lemma NothingRewritten()
    ensures Texts(Rewritten([])) == []
  {
  }

  lemma MediaLineScans(port: nat)
    requires port < 0x8000_0000_0000_0000
    ensures var media := Unwords(["m=video", Decimal(port), "UDP/TLS/RTP/SAVPF", "96"]);
            IsMedia(media) && !IsMid(media) && OneLine(media) && MediaPort(media) == Some(port)
  {
    var words := ["m=video", Decimal(port), "UDP/TLS/RTP/SAVPF", "96"];
    DecimalNatValue(port);
    assert forall i :: 0 <= i < |words| ==> IsWord(words[i]);
    WordsInvertUnwords(words);
    UnwordsHasNoBreak(words);
    DecimalNatScans(port);
    var media := Unwords(words);
    assert media == words[0] + " " + Unwords(words[1..]);
    assert media[0] == words[0][0] && media[1] == words[0][1];
  }
}
