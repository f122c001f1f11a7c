/**
 * The format sniff of app.js: the render handler trims the text area's
 * contents (`String.prototype.trim`) and `isJson` then treats the trimmed
 * text as JSON exactly when it starts with `{` or `[`. Taken together, the
 * input goes down the JSON path exactly when its first character that is
 * not white space is `{` or `[`; blank input goes down the CSV path.
 */
module Sniff {

  /** The code points `trim` removes: the WhiteSpace and LineTerminator
      productions of the ECMAScript language specification (tab, vertical
      tab, form feed, the byte order mark, every space separator, and the
      four line terminators). */
  predicate IsJsSpace(c: char)
  {
    || c == '\t' || c == '\n' || c == '\U{000B}' || c == '\U{000C}' || c == '\r'
    || c == ' ' || c == '\U{00A0}' || c == '\U{1680}'
    || ('\U{2000}' <= c <= '\U{200A}')
    || c == '\U{2028}' || c == '\U{2029}' || c == '\U{202F}' || c == '\U{205F}'
    || c == '\U{3000}' || c == '\U{FEFF}'
  }

  predicate AllSpaces(s: string)
  {
    forall i :: 0 <= i < |s| ==> IsJsSpace(s[i])
  }

  /** The text with its leading white space removed. */
  function TrimStart(s: string): (t: string)
    ensures |t| <= |s| && t == s[|s| - |t|..]
    ensures AllSpaces(s[..|s| - |t|])
    ensures |t| != 0 ==> !IsJsSpace(t[0])
  {
    if |s| != 0 && IsJsSpace(s[0]) then TrimStart(s[1..]) else s
  }

  /** The text with its trailing white space removed. */
  function TrimEnd(s: string): (t: string)
    ensures |t| <= |s| && t == s[..|t|]
    ensures AllSpaces(s[|t|..])
    ensures |t| != 0 ==> !IsJsSpace(t[|t| - 1])
    ensures |s| != 0 && !IsJsSpace(s[0]) ==> |t| != 0
  {
    if |s| != 0 && IsJsSpace(s[|s| - 1]) then TrimEnd(s[..|s| - 1]) else s
  }

  /** `String.prototype.trim`, as applied to the input at app.js:45. */
  function Trim(s: string): string
  {
    TrimEnd(TrimStart(s))
  }

  /** `isJson`: the (already trimmed) text starts with `{` or `[`. */
  predicate IsJson(str: string)
  {
    |str| != 0 && (str[0] == '{' || str[0] == '[')
  }

  /** The reference reading of the sniff: the first character of the input
      that is not white space exists and is `{` or `[`. */
  predicate OpensLikeJson(s: string)
  {
    exists i :: 0 <= i < |s| && AllSpaces(s[..i]) && (s[i] == '{' || s[i] == '[')
  }

  /** `trim` starts at the first character that is not white space: with
      `k` the length of the leading run of white space, the result is empty
      exactly when the whole input is white space, and otherwise starts
      with character `k` of the input. */
  lemma {:induction false} TrimKeepsFirstNonSpace(s: string)
    ensures var k := |s| - |TrimStart(s)|;
      && AllSpaces(s[..k])
      && (|Trim(s)| == 0 <==> k == |s|)
      && (k < |s| ==> !IsJsSpace(s[k]) && Trim(s)[0] == s[k])
  {
    var t := TrimStart(s);
    var k := |s| - |t|;
    assert |t| != 0 ==> t[0] == s[k];
    assert |t| != 0 ==> |Trim(s)| != 0 && Trim(s)[0] == t[0];
  }

  /** The characters that open a JSON object or array are not white space. */
  lemma OpenerIsNotSpace(c: char)
    requires c == '{' || c == '['
    ensures !IsJsSpace(c)
  {
  }

  /** Two positions that each end a run of leading white space, the first
      at a character that is not white space, are the same position. */
  lemma {:induction false} FirstNonSpaceUnique(s: string, i: nat, k: nat)
    requires i < |s| && k <= |s|
    requires AllSpaces(s[..i]) && !IsJsSpace(s[i])
    requires AllSpaces(s[..k]) && (k < |s| ==> !IsJsSpace(s[k]))
    ensures i == k
  {
    forall j | 0 <= j < k
      ensures IsJsSpace(s[j])
    {
      assert s[j] == s[..k][j];
    }
    forall j | 0 <= j < i
      ensures IsJsSpace(s[j])
    {
      assert s[j] == s[..i][j];
    }
  }

  /** Trimming and then looking at the first character is the same as
      looking at the first character that is not white space; in
      particular blank input is never taken for JSON. */
  lemma SniffSeesFirstNonSpace(s: string)
    ensures IsJson(Trim(s)) <==> OpensLikeJson(s)
    ensures AllSpaces(s) ==> !IsJson(Trim(s))
  {
    var k := |s| - |TrimStart(s)|;
    TrimKeepsFirstNonSpace(s);
    if OpensLikeJson(s) {
      var i :| 0 <= i < |s| && AllSpaces(s[..i]) && (s[i] == '{' || s[i] == '[');
      OpenerIsNotSpace(s[i]);
      FirstNonSpaceUnique(s, i, k);
    }
    if IsJson(Trim(s)) {
      assert AllSpaces(s[..k]) && (s[k] == '{' || s[k] == '[');
    }
  }
}
