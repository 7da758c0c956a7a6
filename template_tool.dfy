/** The LaTeX template tool (backend/app/agent/template_tool.py).  The
    template directory is modelled as a map from a file's stem to the text of
    `<stem>.tex` in it, together with whether the directory exists.  Creating
    the tool creates the directory and writes each default template that is
    not there yet; `run` lists the templates, or returns the one whose stem is
    the requested type in lower case. */
module TemplateTool {
  import opened Wrappers
  import opened Strings
  import opened StringOrder

  // ---------------------------------------------------------------------------
  // Default templates
  // ---------------------------------------------------------------------------

  /** The keys of `default_templates`, in the order the dict lists them. */
  const DEFAULT_NAMES: seq<string> :=
    ["swe_resume", "two_row_resume", "textbook", "research", "presentation", "letter"]

  /** `default_templates`: each default name paired with its text.  The six
      texts are constants of other modules and are parameters here. */
  function DefaultTemplates(contents: seq<string>): (ds: seq<(string, string)>)
    requires |contents| == |DEFAULT_NAMES|
    ensures |ds| == |DEFAULT_NAMES|
    ensures forall i :: 0 <= i < |ds| ==> ds[i] == (DEFAULT_NAMES[i], contents[i])
  {
    seq(|contents|, i requires 0 <= i < |contents| => (DEFAULT_NAMES[i], contents[i]))
  }

  /** The directory after writing `content` as `<name>.tex` unless that file exists. */
  function AddIfAbsent(files: map<string, string>, name: string, content: string): map<string, string> {
    if name in files then files else files[name := content]
  }

  /** The names the defaults are written under, in order. */
  function NamesOf(ds: seq<(string, string)>): (r: seq<string>)
    ensures |r| == |ds| && forall i :: 0 <= i < |ds| ==> r[i] == ds[i].0
  {
    seq(|ds|, i requires 0 <= i < |ds| => ds[i].0)
  }

  /** The directory after the loop of `_initialize_default_templates` over `ds`. */
  function WithDefaults(files: map<string, string>, ds: seq<(string, string)>): map<string, string> {
    if |ds| == 0 then files
    else AddIfAbsent(WithDefaults(files, ds[..|ds| - 1]), ds[|ds| - 1].0, ds[|ds| - 1].1)
  }

  /** A template that already exists is never overwritten. */
  lemma {:induction false} WithDefaultsKeepsExisting(files: map<string, string>, ds: seq<(string, string)>)
    ensures forall name :: name in files ==> name in WithDefaults(files, ds) && WithDefaults(files, ds)[name] == files[name]
  {
    if |ds| > 0 {
      WithDefaultsKeepsExisting(files, ds[..|ds| - 1]);
    }
  }

  /** Afterwards the directory holds exactly the old templates and the defaults. */
  lemma {:induction false} WithDefaultsKeys(files: map<string, string>, ds: seq<(string, string)>)
    ensures forall name :: name in WithDefaults(files, ds) <==> name in files || name in NamesOf(ds)
  {
    if |ds| > 0 {
      var init := ds[..|ds| - 1];
      WithDefaultsKeys(files, init);
      assert NamesOf(ds) == NamesOf(init) + [ds[|ds| - 1].0];
    }
  }

  /** A default whose file was missing is written with the text of its first
      entry in the list. */
  lemma {:induction false} WithDefaultsWritesFirst(files: map<string, string>, ds: seq<(string, string)>, i: int)
    requires 0 <= i < |ds| && ds[i].0 !in files
    requires ds[i].0 !in NamesOf(ds[..i])
    ensures ds[i].0 in WithDefaults(files, ds)
    ensures WithDefaults(files, ds)[ds[i].0] == ds[i].1
  {
    var n := |ds| - 1;
    var init := ds[..n];
    if i < n {
      assert init[..i] == ds[..i];
      WithDefaultsWritesFirst(files, init, i);
    } else {
      WithDefaultsKeys(files, init);
    }
  }

  /** When every default is present the loop writes nothing. */
  lemma {:induction false} WithDefaultsAllPresent(files: map<string, string>, ds: seq<(string, string)>)
    requires forall i :: 0 <= i < |ds| ==> ds[i].0 in files
    ensures WithDefaults(files, ds) == files
  {
    if |ds| > 0 {
      WithDefaultsAllPresent(files, ds[..|ds| - 1]);
    }
  }

  /** Creating the tool a second time over the same directory changes nothing. */
  lemma WithDefaultsIdempotent(files: map<string, string>, ds: seq<(string, string)>)
    ensures WithDefaults(WithDefaults(files, ds), ds) == WithDefaults(files, ds)
  {
    WithDefaultsKeys(files, ds);
    assert forall i :: 0 <= i < |ds| ==> NamesOf(ds)[i] == ds[i].0;
    WithDefaultsAllPresent(WithDefaults(files, ds), ds);
  }

  /** The six default names are different from one another. */
  lemma DefaultNamesDistinct(i: int)
    requires 0 <= i < |DEFAULT_NAMES|
    ensures DEFAULT_NAMES[i] !in DEFAULT_NAMES[..i]
  {
    assert |DEFAULT_NAMES[0]| == 10 && |DEFAULT_NAMES[1]| == 14 && |DEFAULT_NAMES[2]| == 8;
    assert |DEFAULT_NAMES[3]| == 8 && |DEFAULT_NAMES[4]| == 12 && |DEFAULT_NAMES[5]| == 6;
    assert DEFAULT_NAMES[2][0] == 't' && DEFAULT_NAMES[3][0] == 'r';
  }

  /** In a directory without a given default, that default gets its own text. */
  lemma DefaultsWrittenInFull(files: map<string, string>, contents: seq<string>, i: int)
    requires |contents| == |DEFAULT_NAMES| && 0 <= i < |DEFAULT_NAMES|
    requires DEFAULT_NAMES[i] !in files
    ensures DEFAULT_NAMES[i] in WithDefaults(files, DefaultTemplates(contents))
    ensures WithDefaults(files, DefaultTemplates(contents))[DEFAULT_NAMES[i]] == contents[i]
  {
    var ds := DefaultTemplates(contents);
    DefaultNamesDistinct(i);
    assert NamesOf(ds[..i]) == DEFAULT_NAMES[..i];
    WithDefaultsWritesFirst(files, ds, i);
  }

  // ---------------------------------------------------------------------------
  // The sorted listing
  // ---------------------------------------------------------------------------

  /** Every non-empty set of strings has a least element. */
  lemma {:induction false} Least(keys: set<string>) returns (m: string)
    requires keys != {}
    ensures m in keys && forall x :: x in keys ==> LessEq(m, x)
    decreases keys
  {
    var y :| y in keys;
    var rest := keys - {y};
    if rest == {} {
      assert keys == {y};
      return y;
    }
    var least := Least(rest);
    if Less(y, least) {
      forall x | x in keys
        ensures LessEq(y, x)
      {
        if x != y && x != least {
          assert x in rest;
          LessTransitive(y, least, x);
        }
      }
      return y;
    }
    LessTotal(y, least);
    return least;
  }

  lemma LeastExists(keys: set<string>)
    requires keys != {}
    ensures exists m :: m in keys && forall x :: x in keys ==> LessEq(m, x)
  {
    var m := Least(keys);
  }

  /** The stems in Python's `sorted` order: the one order in which they are
      strictly increasing. */
  ghost function SortedKeys(keys: set<string>): (r: seq<string>)
    ensures StrictlySorted(r)
    ensures forall x :: x in r <==> x in keys
    decreases keys
  {
    if keys == {} then []
    else
      LeastExists(keys);
      var m :| m in keys && forall x :: x in keys ==> LessEq(m, x);
      var rest := SortedKeys(keys - {m});
      assert forall x :: x in rest ==> Less(m, x);
      [m] + rest
  }

  /** A list holding some string twice counts it twice. */
  lemma TwoCopies(xs: seq<string>, i: int, j: int)
    requires 0 <= i < j < |xs| && xs[i] == xs[j]
    ensures multiset(xs)[xs[i]] >= 2
  {
    assert xs == xs[..j] + [xs[j]] + xs[j + 1..];
    assert xs[..j][i] == xs[i];
    assert xs[i] in multiset(xs[..j]);
  }

  // ---------------------------------------------------------------------------
  // The tool
  // ---------------------------------------------------------------------------

  const TYPE_REQUIRED := "Template type is required"
  const LIST_PREFIX := "Available templates: "
  const LIST_SEPARATOR := ", "
  const FOUND_PREFIX := "Retrieved template: "

  /** The dict `run` returns. */
  datatype TemplateResult =
    | Failure(error: string)
    | Listing(templates: seq<string>, message: string)
    | Found(templateType: string, content: string, message: string)

  function NotFoundMessage(templateType: string, available: seq<string>): string {
    "Template '" + templateType + "' not found. " + LIST_PREFIX + Join(available, LIST_SEPARATOR)
  }

  class TemplateTool {
    /** The `.tex` files of `template_dir`, by stem. */
    var files: map<string, string>
    /** Whether `template_dir` exists. */
    var dirExists: bool

    /** A directory that does not exist holds no file. */
    predicate Valid()
      reads this
    {
      dirExists || files == map[]
    }

    /** `TemplateTool()`: make the directory if it is missing, then add the
        missing defaults; `existing` is what the directory held before. */
    constructor (existing: map<string, string>, contents: seq<string>)
      requires |contents| == |DEFAULT_NAMES|
      ensures Valid() && dirExists
      ensures files == WithDefaults(existing, DefaultTemplates(contents))
    {
      files := existing;
      dirExists := true;
      new;
      InitializeDefaultTemplates(contents);
    }

    /** `_initialize_default_templates`. */
    method InitializeDefaultTemplates(contents: seq<string>)
      requires dirExists && |contents| == |DEFAULT_NAMES|
      modifies this
      ensures dirExists
      ensures files == WithDefaults(old(files), DefaultTemplates(contents))
    {
      var ds := DefaultTemplates(contents);
      for i := 0 to |ds|
        invariant dirExists
        invariant files == WithDefaults(old(files), ds[..i])
      {
        assert ds[..i + 1][..i] == ds[..i];
        var (name, content) := ds[i];
        if name !in files {
          files := files[name := content];
        }
      }
      assert ds[..|ds|] == ds;
    }

    /** `_get_available_templates`: the stems of the `.tex` files, sorted;
        the directory yields them in an order of its own. */
    method GetAvailableTemplates() returns (r: seq<string>)
      requires Valid()
      ensures !dirExists ==> r == []
      ensures r == SortedKeys(files.Keys)
    {
      if !dirExists {
        return [];
      }
      var templates: seq<string> := [];
      var rest := files.Keys;
      while rest != {}
        invariant rest <= files.Keys
        invariant forall x :: x in templates <==> x in files.Keys && x !in rest
        invariant forall x :: multiset(templates)[x] <= 1
        decreases |rest|
      {
        var stem :| stem in rest;
        templates := templates + [stem];
        rest := rest - {stem};
      }
      r := SortStrings(templates);
      forall i, j | 0 <= i < j < |r|
        ensures Less(r[i], r[j])
      {
        if r[i] == r[j] {
          TwoCopies(r, i, j);
        }
      }
      assert forall x :: x in r <==> x in multiset(templates);
      StrictlySortedUnique(r, SortedKeys(files.Keys));
    }

    /** `run(args)` with `args.get("type")`: a missing or empty type is refused;
        `list` in any letter case lists the templates; any other type is
        looked up by its lower-case form. */
    method Run(templateType: Option<string>) returns (r: TemplateResult)
      requires Valid()
      ensures templateType.None? || |templateType.value| == 0 ==> r == Failure(TYPE_REQUIRED)
      ensures templateType.Some? && |templateType.value| != 0 && Lower(templateType.value) == "list" ==>
        var available := SortedKeys(files.Keys);
        r == Listing(available, LIST_PREFIX + Join(available, LIST_SEPARATOR))
      ensures templateType.Some? && |templateType.value| != 0 && Lower(templateType.value) != "list" ==>
        var t := templateType.value;
        if Lower(t) in files then r == Found(t, files[Lower(t)], FOUND_PREFIX + t)
        else r == Failure(NotFoundMessage(t, SortedKeys(files.Keys)))
    {
      if templateType.None? || |templateType.value| == 0 {
        return Failure(TYPE_REQUIRED);
      }
      var t := templateType.value;
      if Lower(t) == "list" {
        var available := GetAvailableTemplates();
        return Listing(available, LIST_PREFIX + Join(available, LIST_SEPARATOR));
      }
      var stem := Lower(t);
      if stem !in files {
        var available := GetAvailableTemplates();
        return Failure(NotFoundMessage(t, available));
      }
      return Found(t, files[stem], FOUND_PREFIX + t);
    }
  }

  // ---------------------------------------------------------------------------
  // Consequences
  // ---------------------------------------------------------------------------

  lemma LowerCharIdempotent(c: char)
    ensures LowerChar(LowerChar(c)) == LowerChar(c)
  {
  }

  /** Lower-casing twice is lower-casing once. */
  lemma LowerIdempotent(s: string)
    ensures Lower(Lower(s)) == Lower(s)
  {
    forall k | 0 <= k < |s|
      ensures Lower(Lower(s))[k] == Lower(s)[k]
    {
      LowerCharIdempotent(s[k]);
    }
  }

  /** A template whose stem has an upper-case letter is listed but no type
      reaches it, since the lookup lower-cases the type. */
  lemma UpperCaseStemUnreachable(stem: string, templateType: string)
    requires Lower(stem) != stem
    ensures Lower(templateType) != stem
  {
    LowerIdempotent(templateType);
  }
}
