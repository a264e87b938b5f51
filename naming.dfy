/** Derivation of the template name and of the `.template-info.json` file
    name from the kebab-cased component name (the tag name). */
module Naming {
  import opened Paths

  /** Length of the tag-name prefix that is dropped (`drupal-`). */
  const TagPrefixLength: nat := 7

  /** `path` names something inside the directory `dir`. */
  predicate InDirectory(path: string, dir: string) {
    |dir| + 1 <= |path| && path[..|dir| + 1] == dir + "/"
  }

  /** JavaScript `s.substring(start)` for a non-negative `start`: the part of
      `s` from `start` on, or `""` when `start` is past the end. */
  function SubstringFrom(s: string, start: nat): (r: string)
    ensures start <= |s| ==> s == s[..start] + r
    ensures |s| <= start ==> r == ""
  {
    if start <= |s| then s[start..] else ""
  }

  /** `tagName.substring(7)`: the tag name without its first seven characters. */
  function TemplateName(tag: string): (r: string)
    ensures |r| == if |tag| <= TagPrefixLength then 0 else |tag| - TagPrefixLength
    ensures forall i :: 0 <= i < |r| ==> r[i] == tag[TagPrefixLength + i]
  {
    SubstringFrom(tag, TagPrefixLength)
  }

  /** `${drupalTemplatesDir}/${drupalTemplateName}.template-info.json`.
      The name lies under `dir`, ends in `.template-info.json`, and the
      template name can be read back from between the two. */
  function TemplateFileName(dir: string, tag: string): (path: string)
    ensures IsTemplateInfo(path)
    ensures InDirectory(path, dir) && |dir| + 1 + |TemplateInfoSuffix| <= |path|
    ensures path[|dir| + 1..|path| - |TemplateInfoSuffix|] == TemplateName(tag)
  {
    var path := dir + "/" + TemplateName(tag) + TemplateInfoSuffix;
    assert path[|path| - |TemplateInfoSuffix|..] == TemplateInfoSuffix;
    assert path[..|dir| + 1] == dir + "/";
    assert path[|dir| + 1..|path| - |TemplateInfoSuffix|] == TemplateName(tag);
    path
  }

  /** A tag name of the usual form `drupal-<name>` yields the template `<name>`. */
  lemma TemplateNameOfDrupalTag(name: string)
    ensures TemplateName("drupal-" + name) == name
  {
    var tag := "drupal-" + name;
    var r := TemplateName(tag);
    assert |r| == |name|;
    forall i | 0 <= i < |r| ensures r[i] == name[i] {
      assert tag[TagPrefixLength + i] == name[i];
    }
  }

  /** Two tag names lead to the same file exactly when they lead to the same
      template name: the file name loses nothing but the dropped prefix. */
  lemma TemplateFileNameInjective(dir: string, tag1: string, tag2: string)
    ensures TemplateFileName(dir, tag1) == TemplateFileName(dir, tag2)
        <==> TemplateName(tag1) == TemplateName(tag2)
  {
    var p1, p2 := TemplateFileName(dir, tag1), TemplateFileName(dir, tag2);
    if p1 == p2 {
      assert p1[|dir| + 1..|p1| - |TemplateInfoSuffix|] == p2[|dir| + 1..|p2| - |TemplateInfoSuffix|];
    }
  }

  /** A derived file name is never itself a component source, so writing it
      can only lead to a reload, never to another regeneration. */
  lemma TemplateFileIsNotComponent(dir: string, tag: string)
    ensures MatchComponent(TemplateFileName(dir, tag)).None?
  {
    var path := TemplateFileName(dir, tag);
    if MatchComponent(path).Some? {
      ComponentIsNotTemplateInfo(path);
      assert false;
    }
  }
}
