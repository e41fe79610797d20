/** Clients of the window that string its event handlers together. */
module Scenarios {
  import opened Text
  import opened Catalog
  import opened View
  import opened Loader

  /** Two clicks on the host button leave the toggle as it was. */
  method ToggleTwice(w: Window)
    requires w.Valid()
    modifies w`buttonLabel, w`useGtk3
    ensures w.Valid()
    ensures w.buttonLabel == old(w.buttonLabel) && w.useGtk3 == old(w.useGtk3)
    ensures w.rows == old(w.rows) && w.pluginUrl == old(w.pluginUrl)
  {
    w.ToggleGtk();
    w.ToggleGtk();
    NextLabelInvolution(old(w.buttonLabel));
  }

  lemma LowerQueries()
    ensures Lower("syn") == "syn" && Lower("synt") == "synt" && Lower("") == ""
  {
  }

  lemma SynthMatches(name: string, uri: string)
    requires name == "Synth A" || name == "Synth B"
    ensures Matches(Entry(name, uri), "syn") && Matches(Entry(name, uri), "synt")
  {
    assert Lower(name) == "synth a" || Lower(name) == "synth b";
  }

  lemma DelayDoesNotMatch()
    ensures !Matches(Entry("Delay", "urn:d"), "syn")
  {
    assert Lower("Delay") == "delay";
    NotContainsFirstChar("delay", "syn");
  }

  lemma SyncMatchesOnlyShorter()
    ensures Matches(Entry("Sync", "urn:s"), "syn") && !Matches(Entry("Sync", "urn:s"), "synt")
  {
    assert Lower("Sync") == "sync";
    assert "sync"[1..] == "ync";
    NotContainsLonger("ync", "synt");
  }

  lemma ThreePluginCatalog(names: seq<string>, urls: seq<string>)
    requires names == ["Synth A", "Synth B", "Delay"] && urls == ["urn:a", "urn:b", "urn:d"]
    ensures BuildCatalog(names, urls) == [Entry("Synth A", "urn:a"), Entry("Synth B", "urn:b"), Entry("Delay", "urn:d")]
  {
    CatalogOfDistinctNames(names, urls);
  }

  /** The three plugins of a small installation, as `lv2ls -n` and `lv2ls` list them. */
  method ThreePluginWindow() returns (w: Window)
    ensures fresh(w) && w.Valid()
    ensures w.catalog == w.rows == [Entry("Synth A", "urn:a"), Entry("Synth B", "urn:b"), Entry("Delay", "urn:d")]
    ensures w.useGtk3 && w.pluginUrl.None?
  {
    var names := ["Synth A", "Synth B", "Delay"];
    var urls := ["urn:a", "urn:b", "urn:d"];
    ThreePluginCatalog(names, urls);
    w := new Window(BuildCatalog(names, urls));
  }

  /**
   * On a three-plugin window: a query that matches the first two plugins
   * shows just those; clearing it shows all three again; selecting the third
   * and launching runs it in jalv.gtk3, and after one toggle in jalv.qt5.
   */
  method FilterSelectLaunch(w: Window, query: string)
    requires w.Valid() && w.useGtk3 && |w.catalog| == 3 && w.rows == w.catalog
    requires Lower(query) != ""
    requires Matches(w.catalog[0], Lower(query)) && Matches(w.catalog[1], Lower(query))
    requires !Matches(w.catalog[2], Lower(query))
    modifies w
    ensures w.Valid()
    ensures w.subtitle == PluginName(w.catalog[2].name)
    ensures w.LaunchCmd() == Ok(["jalv.qt5", w.catalog[2].uri])
  {
    var c := w.catalog;
    var q := Lower(query);
    assert c[1..][1..] == c[2..] && c[2..][0] == c[2] && c[2..][1..] == [];
    assert Keep(c[2..], q) == [];
    assert Keep(c[1..], q) == [c[1]];
    assert Keep(c, q) == [c[0], c[1]];
    w.VisibleCb(query);
    assert w.rows == [c[0], c[1]];

    w.VisibleCb("");
    assert w.rows == c;
    w.ShowInfo(2);
    assert w.LaunchCmd() == Ok(["jalv.gtk3", c[2].uri]);

    w.ToggleGtk();
  }

  /** The three-plugin installation, filtered by "syn", then launching "Delay". */
  method SynthDelay()
  {
    var w := ThreePluginWindow();
    assert w.LaunchCmd() == Err(NoSelection);
    LowerQueries();
    SynthMatches("Synth A", "urn:a");
    SynthMatches("Synth B", "urn:b");
    DelayDoesNotMatch();
    FilterSelectLaunch(w, "syn");
    assert w.LaunchCmd() == Ok(["jalv.qt5", "urn:d"]);
  }

  /** Deleting the last letter of the query does not bring back a row the longer query removed. */
  method Backspace()
  {
    var synth, sync := Entry("Synth A", "urn:a"), Entry("Sync", "urn:s");
    var w := new Window([synth, sync]);
    LowerQueries();
    SynthMatches("Synth A", "urn:a");
    SyncMatchesOnlyShorter();
    w.VisibleCb("synt");
    assert w.rows == [synth];
    w.VisibleCb("syn");
    assert w.rows == [synth];
    KeepForgetsRemoved([synth, sync], "synt", "syn", sync);
  }
}
