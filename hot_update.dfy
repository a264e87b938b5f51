/** The `handleHotUpdate` hook of the `vite:drupal` plugin.

    The file system is a map from path to contents and the WebSocket to the
    browser is the sequence of messages sent on it. `kebabCase`,
    `serializePropTypes` and `JSON.stringify` are passed in as functions:
    `kebab`, `extract` and `stringify`. The effects of one call are first
    described by the pure function `React`; the class `DevServer` then
    performs them step by step as the hook does. */
module HotUpdate {
  import opened Wrappers
  import opened Paths
  import opened Naming

  /** What `JSON.stringify` is given: `{ props: propTypes[tagName] }`. A
      missing entry is `undefined`, written `None` here. */
  datatype Envelope<V> = Envelope(props: Option<V>)

  /** The only message the hook sends: `{ type: "full-reload" }`. */
  datatype Message = FullReload

  /** A write of `contents` to the file at `path`. */
  datatype Write = Write(path: string, contents: string)

  /** The effects of one hook call: at most one file write, whether a reload
      is sent, and whether the call's promise rejects (reading a target file
      that does not exist). */
  datatype Effects = Effects(write: Option<Write>, reload: bool, rejected: bool)

  /** How the hook ends: its promise resolves, or it rejects because the file
      at `missing` could not be read. */
  datatype Completion = Resolved | Rejected(missing: string)

  /** `propTypes[tagName]`: the value under `key`, or `undefined`. */
  function Lookup<V>(m: map<string, V>, key: string): (r: Option<V>)
    ensures r.Some? <==> key in m
    ensures r.Some? ==> r.value == m[key]
  {
    if key in m then Some(m[key]) else None
  }

  /** The `modulePaths` object handed to the extractor: one entry, the tag
      name mapped to the changed file. */
  function ModulePaths(tag: string, file: string): (m: map<string, string>)
    ensures m.Keys == {tag} && m[tag] == file
  {
    map[tag := file]
  }

  /** The contents the hook computes for the template-info file. */
  function NewContents<V>(extract: map<string, string> -> map<string, V>,
                          stringify: Envelope<V> -> string,
                          tag: string, file: string): string
  {
    stringify(Envelope(Lookup(extract(ModulePaths(tag, file)), tag)))
  }

  /** Only the extractor's entry for the tag name, on the one-entry map,
      decides the new contents: any other entries it returns are ignored. */
  lemma NewContentsOnlyTagEntry<V>(extract1: map<string, string> -> map<string, V>,
                                   extract2: map<string, string> -> map<string, V>,
                                   stringify: Envelope<V> -> string,
                                   tag: string, file: string)
    requires Lookup(extract1(ModulePaths(tag, file)), tag) == Lookup(extract2(ModulePaths(tag, file)), tag)
    ensures NewContents(extract1, stringify, tag, file) == NewContents(extract2, stringify, tag, file)
  {
  }

  /** The template-info file that a change to the component `cap` regenerates. */
  function Target(dir: string, kebab: string -> string, cap: string): string {
    TemplateFileName(dir, kebab(cap))
  }

  /** The effects of `handleHotUpdate` for a change to `file`, given the
      templates directory `dir` and the current file store `files`. */
  function React<V>(dir: string, files: map<string, string>, file: string,
                    kebab: string -> string,
                    extract: map<string, string> -> map<string, V>,
                    stringify: Envelope<V> -> string): (e: Effects)
    ensures e.write.Some? ==>
      && IsTemplateInfo(e.write.value.path)
      && InDirectory(e.write.value.path, dir)
      && e.write.value.path in files
      && e.write.value.contents != files[e.write.value.path]
    ensures e.reload <==> IsTemplateInfo(file)
    ensures e.rejected ==> e.write.None? && !e.reload
    ensures e.rejected <==>
      MatchComponent(file).Some? && Target(dir, kebab, MatchComponent(file).value) !in files
    ensures e.write.Some? || e.rejected ==> MatchComponent(file).Some?
  {
    match MatchComponent(file)
    case Some(cap) =>
      var tag := kebab(cap);
      var target := TemplateFileName(dir, tag);
      if target !in files then
        ComponentIsNotTemplateInfo(file);
        Effects(None, false, true)
      else
        var contents := NewContents(extract, stringify, tag, file);
        var write := if contents != files[target] then Some(Write(target, contents)) else None;
        Effects(write, IsTemplateInfo(file), false)
    case None =>
      Effects(None, IsTemplateInfo(file), false)
  }

  /** The file store after the effects `e`: only the written path, if any,
      is added or changed. */
  function Apply(files: map<string, string>, e: Effects): (after: map<string, string>)
    ensures after.Keys == files.Keys + (if e.write.Some? then {e.write.value.path} else {})
    ensures e.write.Some? ==> after[e.write.value.path] == e.write.value.contents
    ensures forall p :: p in files && (e.write.None? || p != e.write.value.path) ==> after[p] == files[p]
  {
    match e.write
    case Some(w) => files[w.path := w.contents]
    case None => files
  }

  /** The messages sent on the WebSocket for the effects `e`. */
  function Messages(e: Effects): (ms: seq<Message>)
    ensures |ms| <= 1
    ensures ms == [FullReload] <==> e.reload
  {
    if e.reload then [FullReload] else []
  }

  /** The target is written exactly when the path is a component source, the
      target can be read, and the new contents differ from the old ones. */
  lemma WriteIffChanged<V>(dir: string, files: map<string, string>, file: string,
                           kebab: string -> string,
                           extract: map<string, string> -> map<string, V>,
                           stringify: Envelope<V> -> string)
    ensures var e := React(dir, files, file, kebab, extract, stringify);
      e.write.Some? <==>
        && MatchComponent(file).Some?
        && var cap := MatchComponent(file).value;
        && Target(dir, kebab, cap) in files
        && NewContents(extract, stringify, kebab(cap), file) != files[Target(dir, kebab, cap)]
    ensures var e := React(dir, files, file, kebab, extract, stringify);
      e.write.Some? ==>
        var cap := MatchComponent(file).value;
        e.write.value == Write(Target(dir, kebab, cap), NewContents(extract, stringify, kebab(cap), file))
  {
  }

  /** Nothing else changes: the file store keeps its set of paths (the target
      must already exist to be read) and every path but the target keeps its
      contents. */
  lemma OnlyTargetChanges<V>(dir: string, files: map<string, string>, file: string,
                             kebab: string -> string,
                             extract: map<string, string> -> map<string, V>,
                             stringify: Envelope<V> -> string)
    requires MatchComponent(file).Some?
    ensures var after := Apply(files, React(dir, files, file, kebab, extract, stringify));
      && after.Keys == files.Keys
      && forall p :: p in files && p != Target(dir, kebab, MatchComponent(file).value) ==> after[p] == files[p]
  {
    var e := React(dir, files, file, kebab, extract, stringify);
    if e.write.Some? {
      WriteIffChanged(dir, files, file, kebab, extract, stringify);
    }
  }

  /** A path that is neither a component source nor a template-info file has
      no effect at all. */
  lemma UnrelatedPathIgnored<V>(dir: string, files: map<string, string>, file: string,
                                kebab: string -> string,
                                extract: map<string, string> -> map<string, V>,
                                stringify: Envelope<V> -> string)
    requires MatchComponent(file).None? && !IsTemplateInfo(file)
    ensures React(dir, files, file, kebab, extract, stringify) == Effects(None, false, false)
  {
  }

  /** One call either may write, or sends a reload, never both: a component
      source is never a template-info file. */
  lemma WriteAndReloadExclusive<V>(dir: string, files: map<string, string>, file: string,
                                   kebab: string -> string,
                                   extract: map<string, string> -> map<string, V>,
                                   stringify: Envelope<V> -> string)
    ensures var e := React(dir, files, file, kebab, extract, stringify);
      !(e.write.Some? && e.reload)
  {
    var e := React(dir, files, file, kebab, extract, stringify);
    if MatchComponent(file).Some? {
      ComponentIsNotTemplateInfo(file);
    }
  }

  /** Write-if-changed makes the hook idempotent: a second call for the same
      file, with the extractor giving the same output, writes nothing and
      leaves the store as the first call left it, so two calls write at most
      once. */
  lemma SecondCallWritesNothing<V>(dir: string, files: map<string, string>, file: string,
                                   kebab: string -> string,
                                   extract: map<string, string> -> map<string, V>,
                                   stringify: Envelope<V> -> string)
    ensures var e1 := React(dir, files, file, kebab, extract, stringify);
      var after := Apply(files, e1);
      var e2 := React(dir, after, file, kebab, extract, stringify);
      && e2.write.None?
      && Apply(after, e2) == after
      && e2.rejected == e1.rejected
  {
    var e1 := React(dir, files, file, kebab, extract, stringify);
    var after := Apply(files, e1);
    var e2 := React(dir, after, file, kebab, extract, stringify);
    WriteIffChanged(dir, files, file, kebab, extract, stringify);
    WriteIffChanged(dir, after, file, kebab, extract, stringify);
    if MatchComponent(file).Some? {
      var cap := MatchComponent(file).value;
      var target := Target(dir, kebab, cap);
      var contents := NewContents(extract, stringify, kebab(cap), file);
      if target in files {
        assert target in after && after[target] == contents;
      }
    }
  }

  /** The write a regeneration makes is itself reported to the hook as a
      changed file; that second call sends exactly one reload and regenerates
      nothing. */
  lemma WrittenFileTriggersReload<V>(dir: string, files: map<string, string>, file: string,
                                     kebab: string -> string,
                                     extract: map<string, string> -> map<string, V>,
                                     stringify: Envelope<V> -> string)
    ensures var e1 := React(dir, files, file, kebab, extract, stringify);
      e1.write.Some? ==>
        var e2 := React(dir, Apply(files, e1), e1.write.value.path, kebab, extract, stringify);
        e2 == Effects(None, true, false) && Messages(e2) == [FullReload]
  {
    var e1 := React(dir, files, file, kebab, extract, stringify);
    if e1.write.Some? {
      WriteIffChanged(dir, files, file, kebab, extract, stringify);
      var cap := MatchComponent(file).value;
      TemplateFileIsNotComponent(dir, kebab(cap));
    }
  }

  /** The target `templates/foo-bar.template-info.json`. */
  const ExampleFooBarTarget: string := "templates" + "/" + "foo-bar" + TemplateInfoSuffix

  /** An edit to `DrupalFooBar.jsx` whose extracted props differ from the
      stored ones rewrites `foo-bar.template-info.json` under the templates
      directory and sends no reload. */
  lemma ExampleComponentEdit<V>(files: map<string, string>,
                                kebab: string -> string,
                                extract: map<string, string> -> map<string, V>,
                                stringify: Envelope<V> -> string)
    requires kebab("DrupalFooBar") == "drupal-foo-bar"
    requires ExampleFooBarTarget in files
    requires NewContents(extract, stringify, "drupal-foo-bar", ExampleFooBarPath)
          != files[ExampleFooBarTarget]
    ensures React("templates", files, ExampleFooBarPath, kebab, extract, stringify)
         == Effects(Some(Write(ExampleFooBarTarget,
                               NewContents(extract, stringify, "drupal-foo-bar", ExampleFooBarPath))),
                    false, false)
  {
    var file, tag := ExampleFooBarPath, "drupal-foo-bar";
    ExampleComponentMatches();
    TemplateNameOfDrupalTag("foo-bar");
    assert TemplateName(tag) == "foo-bar" by {
      assert tag == "drupal-" + "foo-bar";
    }
    assert TemplateFileName("templates", tag) == ExampleFooBarTarget;
    ComponentIsNotTemplateInfo(file);
  }

  /** The Vite dev server as the hook sees it: the files it can read and
      write, and the messages sent to the browser. */
  class DevServer {
    const templatesDir: string
    var files: map<string, string>
    var sent: seq<Message>

    /** `drupal({ drupalTemplatesDir })` installed in a server whose file
        store is `files`. */
    constructor (templatesDir: string, files: map<string, string>)
      ensures this.templatesDir == templatesDir && this.files == files && sent == []
    {
      this.templatesDir := templatesDir;
      this.files := files;
      sent := [];
    }

    /** `handleHotUpdate({ file, server })`. */
    method HandleHotUpdate<V>(file: string,
                              kebab: string -> string,
                              extract: map<string, string> -> map<string, V>,
                              stringify: Envelope<V> -> string)
      returns (outcome: Completion)
      modifies this
      ensures var e := React(templatesDir, old(files), file, kebab, extract, stringify);
        && files == Apply(old(files), e)
        && sent == old(sent) + Messages(e)
        && (outcome.Rejected? <==> e.rejected)
        && (outcome.Rejected? ==> outcome.missing == Target(templatesDir, kebab, MatchComponent(file).value))
    {
      var found := MatchComponent(file);
      if found.Some? {
        var tagName := kebab(found.value);
        var fileName := TemplateFileName(templatesDir, tagName);
        if fileName !in files {
          ComponentIsNotTemplateInfo(file);
          return Rejected(fileName);
        }
        var oldContents := files[fileName];
        var modulePaths: map<string, string> := map[];
        modulePaths := modulePaths[tagName := file];
        var propTypes := extract(modulePaths);
        var newContents := stringify(Envelope(Lookup(propTypes, tagName)));
        if newContents != oldContents {
          files := files[fileName := newContents];
        }
      }
      if IsTemplateInfo(file) {
        sent := sent + [FullReload];
      }
      outcome := Resolved;
    }
  }
}
