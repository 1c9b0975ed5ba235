/** Validation of label keys and values (internal/labels/label.go). Characters stand for bytes. */
module Labels {
  import opened Common

  const MAX_SEGMENT := 63
  const MAX_KEY := 253
  const MAX_VALUE := 63
  const RESERVED_PREFIX := "system-wrangler.io/"

  predicate IsSegmentChar(c: char) {
    'a' <= c <= 'z' || 'A' <= c <= 'Z' || '0' <= c <= '9' || c == '.' || c == '_' || c == '-'
  }

  predicate ValidSegment(s: string) {
    0 < |s| <= MAX_SEGMENT && forall i :: 0 <= i < |s| ==> IsSegmentChar(s[i])
  }

  predicate ValidKey(key: string, allowReserved: bool) {
    0 < |key| <= MAX_KEY &&
    var i := IndexOf('/', key);
    if i == |key| then ValidSegment(key)
    else (allowReserved || !(RESERVED_PREFIX <= key)) && ValidSegment(key[..i]) && ValidSegment(key[i + 1..])
  }

  predicate ValidValue(value: Option<string>) {
    value.None? || (|value.value| <= MAX_VALUE && (value.value == "" || ValidSegment(value.value)))
  }

  /** Characters of keys and values: a segment's, and the one slash a key may have. */
  predicate IsIdentChar(c: char) {
    IsSegmentChar(c) || c == '/'
  }

  predicate IsIdent(s: string) {
    s != "" && forall i :: 0 <= i < |s| ==> IsIdentChar(s[i])
  }

  /** A valid key is an identifier with at most one slash, neither first nor last. */
  lemma ValidKeyIsIdent(key: string)
    requires ValidKey(key, true)
    ensures IsIdent(key)
    ensures forall i, j :: 0 <= i < j < |key| ==> !(key[i] == '/' && key[j] == '/')
    ensures key[0] != '/' && Last(key) != '/'
  {
    var i := IndexOf('/', key);
    assert forall j :: 0 <= j < i ==> key[..i][j] == key[j];
    if i < |key| {
      assert forall j :: i + 1 <= j < |key| ==> key[i + 1..][j - i - 1] == key[j];
    }
  }

  // ------------------------------------------------------ the rules in figures

  /** One to sixty-three characters, each a letter or digit of ASCII, a dot, an underscore or a
      hyphen. */
  predicate SegmentText(s: string) {
    1 <= |s| <= 63 && forall i :: 0 <= i < |s| ==>
      97 <= s[i] as int <= 122 || 65 <= s[i] as int <= 90 || 48 <= s[i] as int <= 57 ||
      s[i] as int == 46 || s[i] as int == 95 || s[i] as int == 45
  }

  /** One such text, or two with a slash between them, of 253 characters in all at most. */
  ghost predicate KeyText(key: string) {
    |key| <= 253 &&
    (SegmentText(key) ||
     exists i :: 0 <= i < |key| && key[i] == '/' && SegmentText(key[..i]) && SegmentText(key[i + 1..]))
  }

  lemma SegmentMeans(s: string)
    ensures ValidSegment(s) <==> SegmentText(s)
    ensures SegmentText(s) ==> '/' !in s
  {
  }

  /** Which keys and values are valid. */
  lemma KeyMeans(key: string)
    ensures ValidKey(key, true) <==> KeyText(key)
  {
    var at := IndexOf('/', key);
    SegmentMeans(key);
    SegmentMeans(key[..at]);
    if at < |key| {
      SegmentMeans(key[at + 1..]);
    }
    if KeyText(key) && !SegmentText(key) {
      var i :| 0 <= i < |key| && key[i] == '/' && SegmentText(key[..i]) && SegmentText(key[i + 1..]);
      SegmentMeans(key[..i]);
      assert at == i;
    }
  }

  /** Callers may set every valid key but those under the application's own prefix. */
  lemma CallersKeysAre(key: string)
    ensures ValidKey(key, false) <==> KeyText(key) && !("system-wrangler.io/" <= key)
  {
    KeyMeans(key);
    var prefix := "system-wrangler.io/";
    if prefix <= key {
      assert prefix[18] == '/' && key[18] == prefix[18];
    }
  }

  lemma ValueMeans(value: string)
    ensures ValidValue(Some(value)) <==> value == "" || SegmentText(value)
  {
    SegmentMeans(value);
  }
}
