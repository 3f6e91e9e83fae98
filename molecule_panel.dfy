/**
 * js/molecule-panel.js: the molecule details panel. A tagged molecule name opens it with
 * that molecule's properties; opening and closing it also switch the sidebar between its
 * mini and full modes.
 */
module MoleculePanelModel {
  import opened Wrappers
  import opened SidebarModel

  /** The eleven properties of a molecule, as the panel's texts show them. */
  datatype Properties = Properties(
    smiles: string, molecularWeight: string, meltingPoint: string, boilingPoint: string,
    flashPoint: string, combustionEnthalpy: string, homo: string, lumo: string,
    espMax: string, espMin: string, commercialViability: string)

  /** The ids of the panel's property elements, in the order `Object.keys` lists the properties. */
  const PropertyKeys := ["smiles", "molecularWeight", "meltingPoint", "boilingPoint", "flashPoint",
                         "combustionEnthalpy", "homo", "lumo", "espMax", "espMin", "commercialViability"]

  function Values(p: Properties): (v: seq<string>)
    ensures |v| == |PropertyKeys|
  {
    [p.smiles, p.molecularWeight, p.meltingPoint, p.boilingPoint, p.flashPoint,
     p.combustionEnthalpy, p.homo, p.lumo, p.espMax, p.espMin, p.commercialViability]
  }

  /** What an unknown name gets: every property '-'. */
  const Unknown := Properties("-", "-", "-", "-", "-", "-", "-", "-", "-", "-", "-")

  predicate IsKnown(name: string) {
    name == "TMSPi" || name == "LiPF6" || name == "LiFSI" || name == "EC" || name == "DEC" || name == "DMC"
  }

  /** `getMoleculeData`: the table's entry, or all '-'. */
  function MoleculeData(name: string): (p: Properties)
  {
    if name == "TMSPi" then
      Properties("C[Si](C)(C)OP(=O)(C[Si](C)(C)O)C[Si](C)(C)O", "314.54 g/mol", "-9.46 °C", "231.99 °C",
                 "110.04 °C", "-86.48 eV", "-7.55 eV", "0.46 eV", "0.71 eV", "-1.83 eV",
                 "Likely commercially available")
    else if name == "LiPF6" then
      Properties("F[P-](F)(F)(F)(F)F.[Li+]", "151.91 g/mol", "200°C", "分解",
                 "-", "-", "-", "-", "-", "-", "Commercially available")
    else if name == "LiFSI" then
      Properties("FS(=O)(=O)N=S(=O)(=O)F.[Li+]", "187.07 g/mol", "145°C", "分解",
                 "-", "-", "-", "-", "-", "-", "Commercially available")
    else if name == "EC" then
      Properties("C1COC(=O)O1", "88.06 g/mol", "36.4°C", "248°C",
                 "-", "-", "-", "-", "-", "-", "Commercially available")
    else if name == "DEC" then
      Properties("CCOC(=O)OCC", "118.13 g/mol", "-43°C", "126°C",
                 "-", "-", "-", "-", "-", "-", "Commercially available")
    else if name == "DMC" then
      Properties("COC(=O)OC", "90.08 g/mol", "4.6°C", "90°C",
                 "-", "-", "-", "-", "-", "-", "Commercially available")
    else Unknown
  }

  /**
   * Unknown names get the all-'-' default; every known molecule has a SMILES string, a weight
   * and a commercial note; only TMSPi has computed orbital energies.
   */
  lemma MoleculeDataFacts(name: string)
    ensures !IsKnown(name) ==> MoleculeData(name) == Unknown
    ensures var p := MoleculeData(name);
            IsKnown(name) ==> p.smiles != "-" && p.molecularWeight != "-" && p.commercialViability != "-"
    ensures MoleculeData(name).homo != "-" <==> name == "TMSPi"
  {
  }

  /** The property elements of the panel's markup, each showing '-'. */
  const InitialTexts: seq<string> := seq(|PropertyKeys|, k => "-")

  /** A known molecule shows its data, an unknown one the markup's dashes. */
  lemma UnknownShowsDashes(name: string)
    ensures !IsKnown(name) ==> Values(MoleculeData(name)) == InitialTexts
    ensures IsKnown(name) ==> Values(MoleculeData(name)) != InitialTexts
  {
    if IsKnown(name) {
      assert Values(MoleculeData(name))[0] != InitialTexts[0];
    }
  }

  class MoleculePanel {
    /** `display: block` rather than 'none'. */
    var visible: bool
    /** `#moleculeName` */
    var name: string
    /** The texts of the property elements, whose ids are `PropertyKeys` in order. */
    var texts: seq<string>
    /** The structure image's display. */
    var imageShown: bool
    /** The `molecule-panel-active` class of the chat container. */
    var layoutActive: bool
    /** Whether `this.sidebar` holds an element. */
    var sidebarCaptured: bool
    /** Whether `.chat-container` and `#chatMain` exist. */
    const hasLayout: bool
    /** Whether `#chatSidebar` exists. */
    const pageHasSidebar: bool
    /** `window.sidebarInstance` */
    const instance: Sidebar?

    /** A visible panel shows the data of the molecule it names. */
    predicate Valid()
      reads this`texts, this`visible, this`name, this`imageShown
    {
      |texts| == |PropertyKeys| &&
      (visible ==> texts == Values(MoleculeData(name)) && imageShown == (name == "TMSPi"))
    }

    /** `createPanel`: hidden, with the markup's placeholder name, image and '-' values. */
    constructor (hasLayout: bool, pageHasSidebar: bool, instance: Sidebar?)
      ensures Valid()
      ensures !visible && name == "分子名称" && texts == InitialTexts && imageShown
      ensures !layoutActive && !sidebarCaptured
      ensures this.hasLayout == hasLayout && this.pageHasSidebar == pageHasSidebar && this.instance == instance
    {
      visible := false;
      name := "分子名称";
      texts := InitialTexts;
      imageShown := true;
      layoutActive := false;
      sidebarCaptured := false;
      this.hasLayout := hasLayout;
      this.pageHasSidebar := pageHasSidebar;
      this.instance := instance;
    }

    function IsVisible(): (b: bool)
      reads this
      ensures b <==> visible
    {
      visible
    }

    /** The `forEach` itself: `vals[k]` becomes the text of the element `PropertyKeys[k]`. */
    method WriteTexts(vals: seq<string>)
      requires |texts| == |vals|
      modifies this`texts
      ensures texts == vals
    {
      var k := 0;
      while k < |vals|
        invariant 0 <= k <= |vals| && |texts| == |vals|
        invariant texts[..k] == vals[..k]
      {
        texts := texts[k := vals[k]];
        k := k + 1;
      }
    }

    /** `loadMoleculeData`: the properties element by element, and the image only for TMSPi. */
    method LoadMoleculeData(moleculeName: string)
      requires |texts| == |PropertyKeys|
      modifies this`texts, this`imageShown
      ensures texts == Values(MoleculeData(moleculeName))
      ensures imageShown == (moleculeName == "TMSPi")
    {
      WriteTexts(Values(MoleculeData(moleculeName)));
      imageShown := moleculeName == "TMSPi";
    }

    /** `adjustLayout`: only when the chat container and `#chatMain` exist. */
    method AdjustLayout(show: bool)
      modifies this`layoutActive
      ensures layoutActive == (if hasLayout then show else old(layoutActive))
    {
      if hasLayout {
        layoutActive := show;
      }
    }

    /** The sidebar switch of `showPanel` and `hidePanel`: only with a captured sidebar and an instance. */
    method SyncSidebar(toMini: bool)
      modifies instance
      ensures instance != null && sidebarCaptured ==> instance.mini == toMini && instance.history == old(instance.history)
      ensures instance != null && !sidebarCaptured ==> unchanged(instance)
    {
      if sidebarCaptured && instance != null {
        if toMini {
          instance.SwitchToMiniMode();
        } else {
          instance.SwitchToFullMode();
        }
      }
    }

    /** `showPanel`: the panel shows `moleculeName`; a captured sidebar goes to mini mode. */
    method ShowPanel(moleculeName: string)
      requires Valid()
      modifies this, instance
      ensures Valid() && visible && name == moleculeName
      ensures layoutActive == (hasLayout || old(layoutActive))
      ensures sidebarCaptured == (old(sidebarCaptured) || pageHasSidebar)
      ensures instance != null && sidebarCaptured ==> instance.mini && instance.history == old(instance.history)
      ensures instance != null && !sidebarCaptured ==> unchanged(instance)
    {
      name := moleculeName;
      LoadMoleculeData(moleculeName);
      visible := true;
      AdjustLayout(true);
      if !sidebarCaptured {
        sidebarCaptured := pageHasSidebar;
      }
      SyncSidebar(true);
    }

    /** `hidePanel`: the full sidebar comes back only if an earlier `showPanel` captured it. */
    method HidePanel()
      requires Valid()
      modifies this`visible, this`layoutActive, instance
      ensures Valid()
      ensures !visible && layoutActive == (old(layoutActive) && !hasLayout)
      ensures instance != null && sidebarCaptured ==> !instance.mini && instance.history == old(instance.history)
      ensures instance != null && !sidebarCaptured ==> unchanged(instance)
    {
      visible := false;
      AdjustLayout(false);
      SyncSidebar(false);
    }

    /** The Escape key closes only a visible panel. */
    method Escape()
      requires Valid()
      modifies this`visible, this`layoutActive, instance
      ensures Valid()
      ensures !visible
      ensures !old(visible) ==> unchanged(this) && (instance != null ==> unchanged(instance))
    {
      if visible {
        HidePanel();
      }
    }

    /** `updateMoleculeData`: reloads the visible molecule of that name, which shows nothing new. */
    method UpdateMoleculeData(moleculeName: string)
      requires Valid()
      modifies this`texts, this`imageShown
      ensures Valid() && unchanged(this)
    {
      if IsVisible() && name == moleculeName {
        LoadMoleculeData(moleculeName);
      }
    }
  }

  /** Closing a panel that never captured the sidebar leaves the sidebar alone. */
  method HideBeforeShowKeepsSidebar(s: Sidebar, hasLayout: bool, pageHasSidebar: bool)
    modifies s
    ensures s.mini == old(s.mini)
  {
    var p := new MoleculePanel(hasLayout, pageHasSidebar, s);
    p.HidePanel();
  }

  /** Opening and then closing the panel on a page with a sidebar ends in the full sidebar. */
  method ShowThenHide(s: Sidebar, moleculeName: string)
    modifies s
    ensures !s.mini && s.history == old(s.history)
  {
    var p := new MoleculePanel(true, true, s);
    p.ShowPanel(moleculeName);
    p.HidePanel();
  }
}
