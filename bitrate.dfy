/** Parsing of human-written bitrates such as "3000k" into kbps. */
module Helpers {
  import opened Wrappers
  import opened GoStrings

  /** The text left once `bitrate` is trimmed, lower-cased and stripped of one trailing 'k'. */
  function BitrateDigits(bitrate: string): string {
    TrimSuffix(ToLower(TrimSpace(bitrate)), "k")
  }

  /** `ParseBitrateKbps`: the value of that text as a Go `int`, or 0 when it is empty or not a number. */
  function ParseBitrateKbps(bitrate: string): (r: int)
    ensures InInt64(r)
    ensures Atoi(BitrateDigits(bitrate)).Some? ==> r == Atoi(BitrateDigits(bitrate)).value
    ensures Atoi(BitrateDigits(bitrate)).None? ==> r == 0
  {
    var digits := BitrateDigits(bitrate);
    if digits == "" then 0
    else
      match Atoi(digits)
      case Some(v) => v
      case None => 0
  }

  /** A string with plain ends and no upper-case letters is its own digit text. */
  lemma DigitsOfPlain(s: string)
    requires s != [] && !IsSpace(s[0]) && IsDigit(s[|s| - 1])
    requires forall i :: 0 <= i < |s| ==> !('A' <= s[i] <= 'Z')
    ensures BitrateDigits(s) == s
  {
    TrimSpaceOfTrimmed(s);
    ToLowerOfLower(s);
  }

  /** ... and with one trailing 'k' added, the digit text is the string without it. */
  lemma DigitsOfPlainK(s: string)
    requires s != [] && !IsSpace(s[0]) && IsDigit(s[|s| - 1])
    requires forall i :: 0 <= i < |s| ==> !('A' <= s[i] <= 'Z')
    ensures BitrateDigits(s + "k") == s
  {
    var sk := s + "k";
    assert TrimSpace(sk) == sk by {
      assert sk[0] == s[0];
      TrimSpaceOfTrimmed(sk);
    }
    assert ToLower(sk) == sk by {
      ToLowerOfLower(sk);
    }
    assert sk[..|s|] == s;
  }

  /** A formatted integer, with or without a "k" suffix, parses back to itself. */
  lemma ParseFormatted(n: int)
    requires InInt64(n)
    ensures ParseBitrateKbps(Itoa(n) + "k") == n
    ensures ParseBitrateKbps(Itoa(n)) == n
  {
    var s := Itoa(n);
    AtoiItoa(n);
    assert IsDigit(s[|s| - 1]) by {
      if n < 0 { assert s[|s| - 1] == s[1..][|s| - 2]; }
    }
    assert forall i :: 0 <= i < |s| ==> !('A' <= s[i] <= 'Z') by {
      forall i | 0 <= i < |s| ensures !('A' <= s[i] <= 'Z') {
        if i > 0 && n < 0 { assert s[i] == s[1..][i - 1]; }
      }
    }
    DigitsOfPlain(s);
    DigitsOfPlainK(s);
  }

  /** Whitespace padding around a text with non-space ends does not change its digit text. */
  lemma DigitsOfPadded(pre: string, s: string, post: string)
    requires forall i :: 0 <= i < |pre| ==> IsSpace(pre[i])
    requires forall i :: 0 <= i < |post| ==> IsSpace(post[i])
    requires s != [] && !IsSpace(s[0]) && !IsSpace(s[|s| - 1])
    ensures BitrateDigits(pre + s + post) == BitrateDigits(s)
  {
    TrimSpacePadded(pre, s, post);
    TrimSpaceOfTrimmed(s);
  }

  /** An upper-case "K" suffix reads as a lower-case one. */
  lemma DigitsOfUpperK(d: string)
    requires d != [] && !IsSpace(d[0])
    ensures BitrateDigits(d + "K") == BitrateDigits(d + "k")
  {
    TrimSpaceOfTrimmed(d + "K");
    TrimSpaceOfTrimmed(d + "k");
    assert ToLower(d + "K") == ToLower(d + "k");
  }

  /** The digit text of a padded integer with a "k" or "K" suffix is that of the integer with "k". */
  lemma DigitsOfPaddedInteger(pre: string, n: int, suf: string, post: string)
    requires forall i :: 0 <= i < |pre| ==> IsSpace(pre[i])
    requires forall i :: 0 <= i < |post| ==> IsSpace(post[i])
    requires suf == "" || suf == "k" || suf == "K"
    ensures suf == "" ==> BitrateDigits(pre + Itoa(n) + suf + post) == BitrateDigits(Itoa(n))
    ensures suf != "" ==> BitrateDigits(pre + Itoa(n) + suf + post) == BitrateDigits(Itoa(n) + "k")
  {
    var d := Itoa(n);
    var s := d + suf;
    assert pre + d + suf + post == pre + s + post;
    assert s[0] == d[0];
    assert !IsSpace(s[|s| - 1]) by {
      if suf == "" && n < 0 { assert d[|d| - 1] == d[1..][|d| - 2]; }
    }
    DigitsOfPadded(pre, s, post);
    if suf == "K" {
      DigitsOfUpperK(d);
    } else if suf == "" {
      assert s == d;
    }
  }

  /** Whitespace padding and an upper- or lower-case "k" around a Go integer are all undone: " 3000K " is 3000. */
  lemma ParseBitrateAccepts(pre: string, n: int, suf: string, post: string)
    requires forall i :: 0 <= i < |pre| ==> IsSpace(pre[i])
    requires forall i :: 0 <= i < |post| ==> IsSpace(post[i])
    requires InInt64(n)
    requires suf == "" || suf == "k" || suf == "K"
    ensures ParseBitrateKbps(pre + Itoa(n) + suf + post) == n
  {
    var x := pre + Itoa(n) + suf + post;
    assert ParseBitrateKbps(Itoa(n)) == n && ParseBitrateKbps(Itoa(n) + "k") == n by {
      ParseFormatted(n);
    }
    if suf == "" {
      assert BitrateDigits(x) == BitrateDigits(Itoa(n)) by {
        DigitsOfPaddedInteger(pre, n, suf, post);
      }
    } else {
      assert BitrateDigits(x) == BitrateDigits(Itoa(n) + "k") by {
        DigitsOfPaddedInteger(pre, n, suf, post);
      }
    }
  }

  /** Lower-casing and removing one trailing "k" keeps every character that does not become 'k'. */
  lemma LowerTrimKeeps(t: string, j: nat)
    requires j < |t| && LowerChar(t[j]) != 'k'
    ensures var d := TrimSuffix(ToLower(t), "k"); j < |d| && d[j] == LowerChar(t[j])
  {
    var l := ToLower(t);
    if HasSuffix(l, "k") {
      assert l[|l| - 1] == 'k';
    }
  }

  /**
   * A character that is no digit, sign, whitespace or 'k' anywhere in the text makes it
   * unreadable, so the result is 0: "abc", "12x0" and "3000 b" all give 0.
   */
  lemma ParseBitrateRejects(bitrate: string, i: nat)
    requires i < |bitrate|
    requires !IsDigit(bitrate[i]) && !IsSpace(bitrate[i])
    requires bitrate[i] != '+' && bitrate[i] != '-' && bitrate[i] != 'k' && bitrate[i] != 'K'
    ensures ParseBitrateKbps(bitrate) == 0
  {
    var c := bitrate[i];
    var t := TrimSpace(bitrate);
    assert c in t by {
      TrimSpaceKeeps(bitrate, i);
    }
    var j :| 0 <= j < |t| && t[j] == c;
    var d := BitrateDigits(bitrate);
    assert j < |d| && d[j] == LowerChar(c) by {
      LowerTrimKeeps(t, j);
    }
    assert Atoi(d) == None by {
      AtoiRejects(d, j);
    }
  }

  /** Blank text has no number in it: "" and "   " give 0. */
  lemma ParseBitrateBlank(bitrate: string)
    requires forall i :: 0 <= i < |bitrate| ==> IsSpace(bitrate[i])
    ensures ParseBitrateKbps(bitrate) == 0
  {
    TrimSpaceBlank(bitrate);
  }

  /** A suffix alone has no number in front of it: "k" and " K " give 0. */
  lemma ParseBitrateLoneK(pre: string, suf: string, post: string)
    requires forall i :: 0 <= i < |pre| ==> IsSpace(pre[i])
    requires forall i :: 0 <= i < |post| ==> IsSpace(post[i])
    requires suf == "k" || suf == "K"
    ensures ParseBitrateKbps(pre + suf + post) == 0
  {
    DigitsOfPadded(pre, suf, post);
    DigitsOfK(suf);
  }

  /** A lone suffix leaves no digit text. */
  lemma DigitsOfK(suf: string)
    requires suf == "k" || suf == "K"
    ensures BitrateDigits(suf) == ""
  {
    assert TrimSpace(suf) == suf by {
      TrimSpaceOfTrimmed(suf);
    }
    assert ToLower(suf) == "k";
  }

  /** The decimal text of 3000. */
  lemma Itoa3000()
    ensures Itoa(3000) == "3000"
  {
    assert NatToDecimal(3) == "3";
    assert NatToDecimal(30) == "30";
    assert NatToDecimal(300) == "300";
    assert NatToDecimal(3000) == "3000";
  }

  /** "3000" reads as 3000. */
  lemma Atoi3000()
    ensures Atoi("3000") == Some(3000)
  {
    Itoa3000();
    AtoiItoa(3000);
  }

  /** The digit text of " 3000K " is "3000". */
  lemma Digits3000K()
    ensures BitrateDigits(" 3000K ") == "3000"
  {
    assert SkipSpaceFrom(" 3000K ", 0) == 1;
    assert TrimSpaceEnd("3000K ", 6) == 5;
    assert TrimSpace(" 3000K ") == "3000K";
    assert ToLower("3000K") == "3000k";
  }

  /** Example: " 3000K " gives 3000, since the padding and the upper-case suffix are undone. */
  lemma ParseBitrate3000K()
    ensures ParseBitrateKbps(" 3000K ") == 3000
  {
    Digits3000K();
    Atoi3000();
  }

  /** Example failure: "3000kk" gives 0, since only one suffix is removed. */
  lemma ParseBitrate3000kk()
    ensures ParseBitrateKbps("3000kk") == 0
  {
    assert BitrateDigits("3000kk") == "3000k" by {
      TrimSpaceOfTrimmed("3000kk");
    }
    AtoiRejects("3000k", 4);
  }

  /** Example failures: "", "k" and "abc" give 0. */
  lemma ParseBitrateUnreadable()
    ensures ParseBitrateKbps("") == 0 && ParseBitrateKbps("k") == 0 && ParseBitrateKbps("abc") == 0
  {
    ParseBitrateBlank("");
    ParseBitrateLoneK("", "k", "");
    assert "" + "k" + "" == "k";
    ParseBitrateRejects("abc", 0);
  }
}
