/**
 The addon form: the five addon types, the generation prompt built from the
 form, the markdown preview of the specification, and the addon-name rule
 the form warns about.
 */
module AddonConfig {
  import opened Wrappers
  import opened Text

  /** The form's fields, all free text; an empty field counts as not filled in. */
  datatype Config = Config(
    addonType: string,
    addonName: string,
    features: string,
    uiLayout: string,
    behavior: string,
    tocVersion: string,
    tocAuthor: string,
    tocDeps: string,
    tocInterface: string)

  datatype AddonType = AddonType(id: string, title: string)

  const AddonTypes: seq<AddonType> := [
    AddonType("ui", "UI Enhancement"),
    AddonType("data", "Data Display"),
    AddonType("auto", "Automation"),
    AddonType("social", "Social"),
    AddonType("combat", "Combat")
  ]

  /** `types.find(t => t.id === id)?.label`: the label of the first type with that id. */
  function FindLabel(types: seq<AddonType>, id: string): (r: Option<string>)
    ensures r.None? <==> forall k :: 0 <= k < |types| ==> types[k].id != id
    ensures r.Some? ==> exists k :: 0 <= k < |types| && types[k].id == id && types[k].title == r.value
                                    && forall j :: 0 <= j < k ==> types[j].id != id
  {
    if |types| == 0 then None
    else if types[0].id == id then Some(types[0].title)
    else
      var r := FindLabel(types[1..], id);
      if r.Some? then
        var k :| 0 <= k < |types[1..]| && types[1..][k].id == id && types[1..][k].title == r.value
                 && forall j :: 0 <= j < k ==> types[1..][j].id != id;
        assert types[k + 1] == types[1..][k];
        r
      else r
  }

  function TypeLabel(id: string): Option<string>
  {
    FindLabel(AddonTypes, id)
  }

  /** An id outside the five types gets the label `Custom` in the prompt, and only such an id. */
  lemma PromptTypeLabel(id: string)
    ensures TypeLabel(id).GetOr("Custom") == "Custom" <==> id !in {"ui", "data", "auto", "social", "combat"}
  {
    var r := TypeLabel(id);
    if r.Some? {
      var k :| 0 <= k < |AddonTypes| && AddonTypes[k].id == id && AddonTypes[k].title == r.value;
      assert AddonTypes[k].title != "Custom";
    } else {
      assert forall k :: 0 <= k < |AddonTypes| ==> AddonTypes[k].id != id;
      assert AddonTypes[0].id == "ui" && AddonTypes[1].id == "data" && AddonTypes[2].id == "auto";
      assert AddonTypes[3].id == "social" && AddonTypes[4].id == "combat";
    }
  }

  // ---- The generation prompt ----

  /** `if (value) prompt += text`: the text when the field is filled in. */
  function When(value: string, text: string): string
  {
    if value == "" then "" else text
  }

  /** The opening sentence, naming the addon and its type; an unknown type is `Custom`. */
  function HeaderPieces(cfg: Config): seq<string>
  {
    ["Create a World of Warcraft addon named \"", cfg.addonName, "\" of type \"",
     TypeLabel(cfg.addonType).GetOr("Custom"), "\"."]
  }

  function PromptHeader(cfg: Config): string
  {
    Concat(HeaderPieces(cfg))
  }

  /**
   The free-text sections, each only when its field is filled in, then the
   `TOC Metadata:` heading, always present, and one line per filled-in TOC field.
   */
  function OptionalPieces(cfg: Config): seq<string>
  {
    [When(cfg.features, "\n\nFeature Requirements:\n" + cfg.features),
     When(cfg.uiLayout, "\n\nUI Layout Preferences:\n" + cfg.uiLayout),
     When(cfg.behavior, "\n\nBehavior & API Requirements:\n" + cfg.behavior),
     "\n\nTOC Metadata:",
     When(cfg.tocInterface, "\n- Interface: " + cfg.tocInterface),
     When(cfg.tocVersion, "\n- Version: " + cfg.tocVersion),
     When(cfg.tocAuthor, "\n- Author: " + cfg.tocAuthor),
     When(cfg.tocDeps, "\n- Dependencies: " + cfg.tocDeps)]
  }

  const PromptClosing: string :=
    "\n\nPlease generate all required files (.toc, .lua, .xml as needed) with complete, production-ready code. "
    + "Include a file_tree showing the addon directory structure, a specification_summary, and a generation_summary."

  function PromptPieces(cfg: Config): seq<string>
  {
    HeaderPieces(cfg) + OptionalPieces(cfg) + [PromptClosing]
  }

  /** `buildPrompt(cfg)`: the prompt opens with the header and closes with the request for files. */
  function BuildPrompt(cfg: Config): (prompt: string)
    ensures StartsWith(prompt, PromptHeader(cfg))
    ensures |PromptClosing| <= |prompt| && prompt[|prompt| - |PromptClosing|..] == PromptClosing
  {
    var head, opt := HeaderPieces(cfg), OptionalPieces(cfg);
    ConcatAppend(head + opt, [PromptClosing]);
    ConcatAppend(head, opt);
    assert Concat([PromptClosing]) == PromptClosing + Concat([]);
    var prompt := Concat(PromptPieces(cfg));
    assert prompt == PromptHeader(cfg) + Concat(opt) + PromptClosing;
    assert prompt[..|PromptHeader(cfg)|] == PromptHeader(cfg);
    prompt
  }

  /** Every filled-in field appears in the prompt, and the type label and the TOC heading always do. */
  lemma PromptMentionsFields(cfg: Config)
    ensures Contains(BuildPrompt(cfg), cfg.addonName)
    ensures Contains(BuildPrompt(cfg), TypeLabel(cfg.addonType).GetOr("Custom"))
    ensures Contains(BuildPrompt(cfg), "\n\nTOC Metadata:")
    ensures cfg.features != "" ==> Contains(BuildPrompt(cfg), "\n\nFeature Requirements:\n" + cfg.features)
    ensures cfg.uiLayout != "" ==> Contains(BuildPrompt(cfg), "\n\nUI Layout Preferences:\n" + cfg.uiLayout)
    ensures cfg.behavior != "" ==> Contains(BuildPrompt(cfg), "\n\nBehavior & API Requirements:\n" + cfg.behavior)
    ensures cfg.tocInterface != "" ==> Contains(BuildPrompt(cfg), "\n- Interface: " + cfg.tocInterface)
    ensures cfg.tocVersion != "" ==> Contains(BuildPrompt(cfg), "\n- Version: " + cfg.tocVersion)
    ensures cfg.tocAuthor != "" ==> Contains(BuildPrompt(cfg), "\n- Author: " + cfg.tocAuthor)
    ensures cfg.tocDeps != "" ==> Contains(BuildPrompt(cfg), "\n- Dependencies: " + cfg.tocDeps)
  {
    var ps := PromptPieces(cfg);
    assert BuildPrompt(cfg) == Concat(ps);
    ConcatContains(ps, 1);
    ConcatContains(ps, 3);
    ConcatContains(ps, 5);
    ConcatContains(ps, 6);
    ConcatContains(ps, 7);
    ConcatContains(ps, 8);
    ConcatContains(ps, 9);
    ConcatContains(ps, 10);
    ConcatContains(ps, 11);
    ConcatContains(ps, 12);
  }

  // ---- The specification preview ----

  /** A line pushed only when its condition holds. */
  function Opt(cond: bool, line: string): (r: seq<string>)
    ensures line != "" ==> "" !in r
  {
    if cond then [line] else []
  }

  function DepsLine(deps: string): string
  {
    "- Dependencies: " + deps
  }

  /** Name, type and the three free-text sections. */
  function FrontLines(c: Config): (r: seq<string>)
    ensures "" !in r
  {
    var typeLabel := TypeLabel(c.addonType);
    Opt(c.addonName != "", "**Addon Name:** " + c.addonName)
      + Opt(typeLabel.Some?, "**Type:** " + typeLabel.GetOr(""))
      + Opt(c.features != "", "\n### Features\n" + c.features)
      + Opt(c.uiLayout != "", "\n### UI Layout\n" + c.uiLayout)
      + Opt(c.behavior != "", "\n### Behavior & API\n" + c.behavior)
  }

  /** The TOC block, shown only when the interface, version or author is filled in. */
  function TocLines(c: Config): (r: seq<string>)
    ensures "" !in r
  {
    if c.tocInterface != "" || c.tocVersion != "" || c.tocAuthor != "" then
      ["\n### TOC Metadata"]
        + Opt(c.tocInterface != "", "- Interface: " + c.tocInterface)
        + Opt(c.tocVersion != "", "- Version: " + c.tocVersion)
        + Opt(c.tocAuthor != "", "- Author: " + c.tocAuthor)
        + Opt(c.tocDeps != "", DepsLine(c.tocDeps))
    else []
  }

  /** The preview's lines, in the order they are pushed; none is empty. */
  function PreviewLines(c: Config): (lines: seq<string>)
    ensures "" !in lines
  {
    FrontLines(c) + TocLines(c)
  }

  /** The specification preview: the lines joined by newlines. */
  function SpecPreview(c: Config): string
  {
    Join(PreviewLines(c), "\n")
  }

  /**
   The preview is empty exactly when nothing it shows is filled in: no name,
   no known type, no free text and no interface, version or author. The
   dependencies alone show nothing.
   */
  lemma SpecPreviewEmpty(c: Config)
    ensures SpecPreview(c) == "" <==>
              c.addonName == "" && TypeLabel(c.addonType).None? && c.features == "" && c.uiLayout == ""
              && c.behavior == "" && c.tocInterface == "" && c.tocVersion == "" && c.tocAuthor == ""
  {
    var lines := PreviewLines(c);
    assert forall k :: 0 <= k < |lines| ==> lines[k] != "" by {
      forall k | 0 <= k < |lines| ensures lines[k] != "" {
        assert lines[k] in lines;
      }
    }
    JoinEmpty(lines, "\n");
  }

  /** The lines before the TOC block start with `*` or a newline, so none is the dependencies line. */
  lemma DepsNotInFront(c: Config)
    ensures DepsLine(c.tocDeps) !in FrontLines(c)
  {
    var x := DepsLine(c.tocDeps);
    var typeLabel := TypeLabel(c.addonType);
    assert x[0] == '-';
    assert x != "**Addon Name:** " + c.addonName;
    assert x != "**Type:** " + typeLabel.GetOr("");
    assert x != "\n### Features\n" + c.features;
    assert x != "\n### UI Layout\n" + c.uiLayout;
    assert x != "\n### Behavior & API\n" + c.behavior;
  }

  /** The dependencies line is shown exactly when dependencies are set and some other TOC field is. */
  lemma SpecPreviewDeps(c: Config)
    ensures DepsLine(c.tocDeps) in PreviewLines(c) <==>
              c.tocDeps != "" && (c.tocInterface != "" || c.tocVersion != "" || c.tocAuthor != "")
  {
    DepsNotInFront(c);
    DepsInToc(c);
  }

  lemma DepsInToc(c: Config)
    ensures DepsLine(c.tocDeps) in TocLines(c) <==>
              c.tocDeps != "" && (c.tocInterface != "" || c.tocVersion != "" || c.tocAuthor != "")
  {
    var x := DepsLine(c.tocDeps);
    assert x[0] == '-' && x[2] == 'D';
    assert x != "\n### TOC Metadata";
    assert x != "- Interface: " + c.tocInterface;
    assert x != "- Version: " + c.tocVersion;
    assert x != "- Author: " + c.tocAuthor;
  }

  // ---- The addon name ----

  /** `/^[A-Za-z][A-Za-z0-9_]*$/`. */
  predicate ValidAddonName(name: string)
  {
    |name| > 0 && IsAsciiLetter(name[0]) && forall k :: 1 <= k < |name| ==> IsWordChar(name[k])
  }

  /** The form shows its warning for a name that is filled in and breaks the rule. */
  predicate NameWarning(name: string)
  {
    name != "" && !ValidAddonName(name)
  }

  /** The rule checked character by character. */
  method CheckAddonName(name: string) returns (ok: bool)
    ensures ok <==> ValidAddonName(name)
  {
    if |name| == 0 || !IsAsciiLetter(name[0]) {
      return false;
    }
    var i := 1;
    while i < |name|
      invariant 1 <= i <= |name|
      invariant forall k :: 1 <= k < i ==> IsWordChar(name[k])
    {
      if !IsWordChar(name[i]) {
        return false;
      }
      i := i + 1;
    }
    return true;
  }

  lemma NameExamples()
    ensures ValidAddonName("MyAddon_2")
    ensures !ValidAddonName("2Fast") && NameWarning("2Fast")
    ensures !ValidAddonName("My-Addon")
    ensures !NameWarning("")
  {
    assert "My-Addon"[2] == '-';
  }
}
