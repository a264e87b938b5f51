/** Classification of the path that the dev server reports as changed:
    the component-source pattern `/components/(Drupal[\w\-]+)\.jsx$` and the
    `.template-info.json` suffix. */
module Paths {
  import opened Wrappers

  const ComponentsDir: string := "/components/"
  const JsxSuffix: string := ".jsx"
  const DrupalPrefix: string := "Drupal"
  const TemplateInfoSuffix: string := ".template-info.json"

  /** `s.endsWith(suffix)` in JavaScript. */
  predicate EndsWith(s: string, suffix: string) {
    |suffix| <= |s| && s[|s| - |suffix|..] == suffix
  }

  /** A member of the character class `[\w\-]`; in JavaScript `\w` is `[A-Za-z0-9_]`. */
  predicate IsWordOrHyphen(c: char) {
    ('A' <= c <= 'Z') || ('a' <= c <= 'z') || ('0' <= c <= '9') || c == '_' || c == '-'
  }

  predicate AllWordOrHyphen(s: string) {
    forall i :: 0 <= i < |s| ==> IsWordOrHyphen(s[i])
  }

  /** What the capture group `(Drupal[\w\-]+)` can match: `Drupal` followed by
      at least one character of the class. */
  predicate IsComponentName(cap: string) {
    |cap| > |DrupalPrefix| && cap[..|DrupalPrefix|] == DrupalPrefix && AllWordOrHyphen(cap)
  }

  /** Reference meaning of the regular expression: it matches `path` with
      capture `cap` when the path, read from some position to its very end
      (the pattern is not anchored at the start, `$` anchors the end), is
      `/components/` + `cap` + `.jsx`. */
  predicate RegexMatch(path: string, cap: string) {
    IsComponentName(cap) && EndsWith(path, ComponentsDir + cap + JsxSuffix)
  }

  /** The longest suffix of `s` made only of `[\w\-]` characters. */
  function TrailingRun(s: string): (r: string)
    ensures |r| <= |s| && r == s[|s| - |r|..]
    ensures AllWordOrHyphen(r)
    ensures |r| < |s| ==> !IsWordOrHyphen(s[|s| - |r| - 1])
    decreases |s|
  {
    if |s| == 0 || !IsWordOrHyphen(s[|s| - 1]) then ""
    else TrailingRun(s[..|s| - 1]) + [s[|s| - 1]]
  }

  /** `file.match(reDrupalComponent)`, giving `found[1]` when there is a match.
      Since `[\w\-]` excludes `/` and `.`, the capture can only be the whole
      run of class characters in front of the final `.jsx`. */
  function MatchComponent(path: string): (r: Option<string>)
    ensures r.Some? ==> RegexMatch(path, r.value)
    ensures r.Some? ==> '/' !in r.value && '.' !in r.value
  {
    if !EndsWith(path, JsxSuffix) then None
    else
      var stem := path[..|path| - |JsxSuffix|];
      var cap := TrailingRun(stem);
      if IsComponentName(cap) && EndsWith(stem[..|stem| - |cap|], ComponentsDir) then
        assert path == stem + JsxSuffix;
        assert stem == stem[..|stem| - |cap|] + cap;
        assert path[|path| - |ComponentsDir + cap + JsxSuffix|..] == ComponentsDir + cap + JsxSuffix;
        Some(cap)
      else None
  }

  /** `file.endsWith('.template-info.json')`. Such a path is some prefix
      followed by the suffix, and it never ends in `.jsx`. */
  predicate IsTemplateInfo(path: string)
    ensures IsTemplateInfo(path) ==>
      |TemplateInfoSuffix| <= |path| && path == path[..|path| - |TemplateInfoSuffix|] + TemplateInfoSuffix
    ensures IsTemplateInfo(path) ==> !EndsWith(path, JsxSuffix)
  {
    var b := EndsWith(path, TemplateInfoSuffix);
    assert b ==> path[|path| - 1] == TemplateInfoSuffix[|TemplateInfoSuffix| - 1] == 'n';
    assert JsxSuffix[|JsxSuffix| - 1] == 'x';
    b
  }

  /** Two maximal runs at the end of the same string are the same run. */
  lemma {:induction false} MaximalRunUnique(s: string, t: string)
    requires |t| <= |s| && t == s[|s| - |t|..] && AllWordOrHyphen(t)
    requires |t| < |s| ==> !IsWordOrHyphen(s[|s| - |t| - 1])
    ensures TrailingRun(s) == t
    decreases |s|
  {
    if |t| > 0 {
      var s', t' := s[..|s| - 1], t[..|t| - 1];
      assert t == t' + [t[|t| - 1]];
      assert s[|s| - 1] == t[|t| - 1];
      assert t' == s'[|s'| - |t'|..];
      assert |t'| < |s'| ==> s'[|s'| - |t'| - 1] == s[|s| - |t| - 1];
      MaximalRunUnique(s', t');
    }
  }

  /** A component name right after a `/components/` directory, followed by
      `.jsx`, is what `MatchComponent` captures. */
  lemma MatchOfParts(head: string, cap: string)
    requires EndsWith(head, ComponentsDir) && IsComponentName(cap)
    ensures MatchComponent(head + cap + JsxSuffix) == Some(cap)
  {
    var path := head + cap + JsxSuffix;
    assert path[|path| - |JsxSuffix|..] == JsxSuffix;
    var stem := path[..|path| - |JsxSuffix|];
    assert stem == head + cap;
    assert stem[|stem| - |cap|..] == cap;
    assert head[|head| - 1] == ComponentsDir[|ComponentsDir| - 1] == '/';
    assert stem[|stem| - |cap| - 1] == head[|head| - 1];
    MaximalRunUnique(stem, cap);
    assert stem[..|stem| - |cap|] == head;
  }

  /** Completeness: whenever the regular expression matches with capture
      `cap`, `MatchComponent` finds exactly that capture. */
  lemma MatchComponentComplete(path: string, cap: string)
    requires RegexMatch(path, cap)
    ensures MatchComponent(path) == Some(cap)
  {
    var whole := ComponentsDir + cap + JsxSuffix;
    var pre := path[..|path| - |whole|];
    assert path == pre + whole;
    var head := pre + ComponentsDir;
    assert head[|head| - |ComponentsDir|..] == ComponentsDir;
    assert path == head + cap + JsxSuffix;
    MatchOfParts(head, cap);
  }

  /** The capture of a match is determined by the path: `found[1]` is unique. */
  lemma RegexMatchUnique(path: string, cap1: string, cap2: string)
    requires RegexMatch(path, cap1) && RegexMatch(path, cap2)
    ensures cap1 == cap2
  {
    MatchComponentComplete(path, cap1);
    MatchComponentComplete(path, cap2);
  }

  /** The two branches of the hot-update handler exclude each other: a
      component source ends in `.jsx`, never in `.template-info.json`. */
  lemma ComponentIsNotTemplateInfo(path: string)
    requires MatchComponent(path).Some?
    ensures !IsTemplateInfo(path)
  {
    var cap := MatchComponent(path).value;
    var whole := ComponentsDir + cap + JsxSuffix;
    assert path[|path| - 1] == whole[|whole| - 1] == 'x';
    assert TemplateInfoSuffix[|TemplateInfoSuffix| - 1] == 'n';
  }

  /** A component name is the stem of the last path segment: it has no `/` and
      no `.`, starts with `Drupal` and has at least seven characters. */
  lemma CaptureShape(path: string)
    requires MatchComponent(path).Some?
    ensures var cap := MatchComponent(path).value;
      |cap| >= 7 && cap[..6] == "Drupal" && '/' !in cap && '.' !in cap
      && EndsWith(path, "/" + cap + ".jsx")
  {
    var cap := MatchComponent(path).value;
    var whole := ComponentsDir + cap + JsxSuffix;
    assert whole[|whole| - |"/" + cap + ".jsx"|..] == "/" + cap + ".jsx";
  }

  /** `/src/components/DrupalFooBar.jsx` */
  const ExampleFooBarPath: string := "/src" + ComponentsDir + "DrupalFooBar" + JsxSuffix
  /** `/src/components/Drupal.jsx` */
  const ExampleBareDrupalPath: string := "/src/components/" + "Drupal" + JsxSuffix
  /** `/components/ui/DrupalCard.jsx` */
  const ExampleNestedPath: string := "/components/ui/" + "DrupalCard" + JsxSuffix
  /** `/components/DrupalCard.stories.jsx` */
  const ExampleDottedPath: string := "/components/DrupalCard." + "stories" + JsxSuffix

  /** A component source directly inside a `components` directory matches,
      capturing the file name without `.jsx`. */
  lemma ExampleComponentMatches()
    ensures MatchComponent(ExampleFooBarPath) == Some("DrupalFooBar")
  {
    var head := "/src" + ComponentsDir;
    assert head[|head| - |ComponentsDir|..] == ComponentsDir;
    assert "DrupalFooBar"[..6] == DrupalPrefix;
    MatchOfParts(head, "DrupalFooBar");
  }

  /** `Drupal` alone is not a component name: the class must match at least
      one more character. */
  lemma ExampleBareDrupalIgnored()
    ensures MatchComponent(ExampleBareDrupalPath).None?
  {
    var path := ExampleBareDrupalPath;
    var stem := path[..|path| - 4];
    assert stem == "/src/components/" + "Drupal";
    assert stem[|stem| - 6..] == "Drupal";
    assert stem[|stem| - 7] == '/';
    MaximalRunUnique(stem, "Drupal");
  }

  /** A component in a sub-directory of `components` is not matched: the
      pattern wants `/components/` right before the file name. */
  lemma ExampleNestedIgnored()
    ensures MatchComponent(ExampleNestedPath).None?
  {
    var path := ExampleNestedPath;
    var stem := path[..|path| - 4];
    assert stem == "/components/ui/" + "DrupalCard";
    assert stem[|stem| - 10..] == "DrupalCard";
    assert stem[|stem| - 11] == '/';
    MaximalRunUnique(stem, "DrupalCard");
    var head := stem[..|stem| - 10];
    assert head == "/components/ui/";
    assert head[|head| - 2] == 'i' && ComponentsDir[|ComponentsDir| - 2] == 's';
  }

  /** A second dot in the file name stops the match: `.` is not in the class. */
  lemma ExampleDottedNameIgnored()
    ensures MatchComponent(ExampleDottedPath).None?
  {
    var path := ExampleDottedPath;
    var stem := path[..|path| - 4];
    assert stem == "/components/DrupalCard." + "stories";
    assert stem[|stem| - 7..] == "stories";
    assert stem[|stem| - 8] == '.';
    MaximalRunUnique(stem, "stories");
    assert "stories"[0] != DrupalPrefix[0];
  }
}
