/** Choosing the file suffix of the temporary file that carries an audio
    part to the secondary provider's speech-to-text service. */
module AudioSuffix {
  import opened Strings
  import opened Requests

  /** Every suffix the temporary file can get. */
  const Suffixes: seq<string> := [".mp3", ".ogg", ".webm", ".m4a", ".flac", ".wav"]

  /** The suffix used when no MIME type is given or none of the rules match. */
  const DefaultSuffix: string := ".wav"

  /** The MIME-type rules in the order they are tried: the keywords any of
      which selects the rule, and the suffix the rule gives. */
  const Rules: seq<(seq<string>, string)> := [
    (["mpeg", "mp3"], ".mp3"),
    (["ogg"], ".ogg"),
    (["webm"], ".webm"),
    (["mp4", "m4a"], ".m4a"),
    (["flac"], ".flac"),
    (["wav"], ".wav")
  ]

  /** The suffix for an audio part with the given "mime_type" entry (None
      when the dictionary has no such key): the type is lower-cased and the
      first matching test of the if/elif chain decides. */
  function SuffixFor(mimeType: Option<string>): (suffix: string)
    ensures suffix in Suffixes
    ensures mimeType.None? ==> suffix == DefaultSuffix
  {
    match mimeType
    case None => DefaultSuffix
    case Some(t) =>
      var mt := Lower(t);
      if Contains(mt, "mpeg") || Contains(mt, "mp3") then ".mp3"
      else if Contains(mt, "ogg") then ".ogg"
      else if Contains(mt, "webm") then ".webm"
      else if Contains(mt, "mp4") || Contains(mt, "m4a") then ".m4a"
      else if Contains(mt, "flac") then ".flac"
      else if Contains(mt, "wav") then ".wav"
      else DefaultSuffix
  }

  /** Reference reading of a rule table: the suffix of the first rule one of
      whose keywords occurs, or the default when none does. */
  function FirstMatch(rules: seq<(seq<string>, string)>, mt: string): string
  {
    if rules == [] then DefaultSuffix
    else if AnyIn(rules[0].0, mt) then rules[0].1
    else FirstMatch(rules[1..], mt)
  }

  lemma AnyInOne(a: string, s: string)
    ensures AnyIn([a], s) == Contains(s, a)
  {
    assert [a][1..] == [];
  }

  lemma AnyInTwo(a: string, b: string, s: string)
    ensures AnyIn([a, b], s) == (Contains(s, a) || Contains(s, b))
  {
    assert [a, b][1..] == [b];
    AnyInOne(b, s);
  }

  /** The if/elif chain is the first-match reading of the rule table. */
  lemma SuffixIsFirstMatch(t: string)
    ensures SuffixFor(Some(t)) == FirstMatch(Rules, Lower(t))
  {
    var mt := Lower(t);
    AnyInTwo("mpeg", "mp3", mt);
    AnyInOne("ogg", mt);
    AnyInOne("webm", mt);
    AnyInTwo("mp4", "m4a", mt);
    AnyInOne("flac", mt);
    AnyInOne("wav", mt);
    var r1 := Rules[1..];
    assert r1 == [(["ogg"], ".ogg"), (["webm"], ".webm"), (["mp4", "m4a"], ".m4a"), (["flac"], ".flac"), (["wav"], ".wav")];
    var r2 := r1[1..];
    assert r2 == [(["webm"], ".webm"), (["mp4", "m4a"], ".m4a"), (["flac"], ".flac"), (["wav"], ".wav")];
    var r3 := r2[1..];
    assert r3 == [(["mp4", "m4a"], ".m4a"), (["flac"], ".flac"), (["wav"], ".wav")];
    var r4 := r3[1..];
    assert r4 == [(["flac"], ".flac"), (["wav"], ".wav")];
    var r5 := r4[1..];
    assert r5 == [(["wav"], ".wav")];
    assert FirstMatch(r5, mt) == if Contains(mt, "wav") then ".wav" else FirstMatch(r5[1..], mt);
    assert r5[1..] == [];
    assert FirstMatch(r4, mt) == if Contains(mt, "flac") then ".flac" else FirstMatch(r5, mt);
    assert FirstMatch(r3, mt) == if Contains(mt, "mp4") || Contains(mt, "m4a") then ".m4a" else FirstMatch(r4, mt);
    assert FirstMatch(r2, mt) == if Contains(mt, "webm") then ".webm" else FirstMatch(r3, mt);
    assert FirstMatch(r1, mt) == if Contains(mt, "ogg") then ".ogg" else FirstMatch(r2, mt);
    assert FirstMatch(Rules, mt) == if Contains(mt, "mpeg") || Contains(mt, "mp3") then ".mp3" else FirstMatch(r1, mt);
  }

  /** First match wins: the rule that decides is the earliest one that
      matches, whatever later rules would say. */
  lemma {:induction false} FirstMatchPrecedence(rules: seq<(seq<string>, string)>, mt: string, j: nat)
    requires j < |rules| && AnyIn(rules[j].0, mt)
    requires forall i :: 0 <= i < j ==> !AnyIn(rules[i].0, mt)
    ensures FirstMatch(rules, mt) == rules[j].1
  {
    if j > 0 {
      assert !AnyIn(rules[0].0, mt);
      FirstMatchPrecedence(rules[1..], mt, j - 1);
    }
  }

  /** When no rule matches, the default suffix is used. */
  lemma {:induction false} FirstMatchNone(rules: seq<(seq<string>, string)>, mt: string)
    requires forall i :: 0 <= i < |rules| ==> !AnyIn(rules[i].0, mt)
    ensures FirstMatch(rules, mt) == DefaultSuffix
  {
    if rules != [] {
      assert !AnyIn(rules[0].0, mt);
      FirstMatchNone(rules[1..], mt);
    }
  }

  /** The suffix of a given MIME type is that of the first rule one of whose
      keywords occurs in the lower-cased type, and ".wav" if there is none. */
  lemma SuffixPrecedence(t: string, j: nat)
    requires j < |Rules| && AnyIn(Rules[j].0, Lower(t))
    requires forall i :: 0 <= i < j ==> !AnyIn(Rules[i].0, Lower(t))
    ensures SuffixFor(Some(t)) == Rules[j].1
  {
    SuffixIsFirstMatch(t);
    FirstMatchPrecedence(Rules, Lower(t), j);
  }

  lemma SuffixWithoutMatch(t: string)
    requires forall i :: 0 <= i < |Rules| ==> !AnyIn(Rules[i].0, Lower(t))
    ensures SuffixFor(Some(t)) == DefaultSuffix
  {
    SuffixIsFirstMatch(t);
    FirstMatchNone(Rules, Lower(t));
  }

  /** An Ogg container that names an MP3 codec gets ".mp3": the MPEG rule is
      tried before the Ogg rule. Upper-case types are recognised. */
  lemma OggWithMp3CodecIsMp3()
    ensures SuffixFor(Some("audio/OGG; codecs=MP3")) == ".mp3"
  {
    var mt := Lower("audio/OGG; codecs=MP3");
    assert mt[18..21] == "mp3";
    OccursIsContained(mt, "mp3", 18);
  }
}
