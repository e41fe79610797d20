/**
 * The plugin loader window: the list of visible rows behind the icon view,
 * the gtk3/qt5 host toggle, the selected plugin and the launch command.
 */
module Loader {
  import opened Wrappers
  import opened Text
  import opened Catalog
  import opened View

  /** What the header bar shows under its title. */
  datatype Subtitle = PluginCount(count: nat) | PluginName(name: string)

  /** `open_plugin` before any item was activated: the attributes are still unset. */
  datatype LaunchError = NoSelection

  datatype Result<T> = Ok(value: T) | Err(error: LaunchError)

  /** The label the host button shows after one click. */
  function NextLabel(current: string): (r: string)
    ensures r == "gtk3" || r == "qt5"
    ensures r == "gtk3" <==> current != "gtk3"
  {
    if current == "gtk3" then "qt5" else "gtk3"
  }

  /** Two clicks on the host button restore its label. */
  lemma NextLabelInvolution(current: string)
    requires current == "gtk3" || current == "qt5"
    ensures NextLabel(NextLabel(current)) == current
  {
  }

  /** The host binary for the state of the toggle. */
  function HostExecutable(useGtk3: bool): (r: string)
    ensures r == "jalv.gtk3" || r == "jalv.qt5"
    ensures r == "jalv.gtk3" <==> useGtk3
  {
    if useGtk3 then "jalv.gtk3" else "jalv.qt5"
  }

  /** Sequence facts for the in-place removal loop of `VisibleCb`. */
  lemma TakeOneMore<T>(s: seq<T>, k: nat)
    requires k < |s|
    ensures s[..k + 1] == s[..k] + [s[k]]
    ensures s[k + 1..] == s[k..][1..]
  {
  }

  lemma RemoveAt<T>(s: seq<T>, i: nat)
    requires i < |s|
    ensures (s[..i] + s[i + 1..])[..i] == s[..i]
    ensures (s[..i] + s[i + 1..])[i..] == s[i..][1..]
  {
  }

  class Window {
    /** The plugin catalog, built once before the window exists. */
    const catalog: seq<Entry>
    /** The rows of the list store shown in the icon view (the icon column left out). */
    var rows: seq<Entry>
    /** The text of the host toggle button. */
    var buttonLabel: string
    var useGtk3: bool
    var pluginName: Option<string>
    var pluginUrl: Option<string>
    var subtitle: Subtitle
    /** The text of the info label under the icon view. */
    var info: string

    /** The toggle's flag agrees with its label; name and url are set together. */
    ghost predicate Valid()
      reads this
    {
      && (buttonLabel == "gtk3" || buttonLabel == "qt5")
      && useGtk3 == (buttonLabel == "gtk3")
      && pluginName.Some? == pluginUrl.Some?
    }

    constructor (catalog: seq<Entry>)
      ensures Valid()
      ensures this.catalog == catalog && rows == catalog
      ensures useGtk3 && buttonLabel == "gtk3"
      ensures pluginName == None && pluginUrl == None
      ensures subtitle == PluginCount(|catalog|)
      ensures info == "Info"
    {
      this.catalog := catalog;
      useGtk3 := true;
      subtitle := PluginCount(|catalog|);
      buttonLabel := "gtk3";
      pluginName, pluginUrl := None, None;
      info := "Info";
      rows := [];
      new;
      ReadChannels();
    }

    /** `toggle_gtk`: flips the label between "gtk3" and "qt5" and the flag with it. */
    method ToggleGtk()
      requires Valid()
      modifies this`buttonLabel, this`useGtk3
      ensures Valid()
      ensures buttonLabel == NextLabel(old(buttonLabel))
      ensures useGtk3 == !old(useGtk3)
    {
      if buttonLabel == "gtk3" {
        buttonLabel := "qt5";
        useGtk3 := false;
      } else {
        buttonLabel := "gtk3";
        useGtk3 := true;
      }
    }

    /** `read_channels`: clears the rows and appends every catalog entry in catalog order. */
    method ReadChannels()
      modifies this`rows
      ensures rows == catalog
    {
      rows := [];
      var i := 0;
      while i < |catalog|
        invariant 0 <= i <= |catalog|
        invariant rows == catalog[..i]
      {
        rows := rows + [catalog[i]];
        i := i + 1;
      }
    }

    /**
     * `visible_cb`: an empty query first restores the whole catalog; then every
     * row whose lower-cased name does not contain the lower-cased query is
     * removed from the current rows.
     */
    method VisibleCb(text: string)
      modifies this`rows
      ensures rows == Keep(if Lower(text) == "" then catalog else old(rows), Lower(text))
      ensures Lower(text) == "" ==> rows == catalog
      ensures Lower(text) != "" ==> IsSubsequence(rows, old(rows))
      ensures Lower(text) != "" ==> forall row :: row in rows <==> row in old(rows) && Matches(row, Lower(text))
    {
      var query := Lower(text);
      if query == "" {
        ReadChannels();
      }
      ghost var source := rows;
      var i := 0;
      ghost var k := 0;
      while i < |rows|
        invariant 0 <= i <= |rows| && 0 <= k <= |source|
        invariant rows[..i] == Keep(source[..k], query)
        invariant rows[i..] == source[k..]
        decreases |rows| - i
      {
        assert rows[i] == source[k] by {
          assert rows[i..][0] == source[k..][0];
        }
        TakeOneMore(source, k);
        KeepLast(source[..k], source[k], query);
        if !Contains(Lower(rows[i].name), query) {
          RemoveAt(rows, i);
          rows := rows[..i] + rows[i + 1..];
        } else {
          TakeOneMore(rows, i);
          i := i + 1;
        }
        k := k + 1;
      }
      assert source[..k] == source;
      if query == "" {
        KeepEmptyQuery(source);
      } else {
        KeepIsSubsequence(source, query);
        forall row
          ensures row in rows <==> row in source && Matches(row, query)
        {
          KeepMembers(source, query, row);
        }
      }
    }

    /**
     * `show_info`: the activated row becomes the selection; its name goes to
     * the header's subtitle and "name - uri" to the info label.
     */
    method ShowInfo(path: nat)
      requires Valid() && path < |rows|
      modifies this`pluginName, this`pluginUrl, this`subtitle, this`info
      ensures Valid()
      ensures pluginName == Some(rows[path].name) && pluginUrl == Some(rows[path].uri)
      ensures subtitle == PluginName(rows[path].name)
      ensures info == rows[path].name + " - " + rows[path].uri
    {
      pluginName := Some(rows[path].name);
      pluginUrl := Some(rows[path].uri);
      info := pluginName.value + " - " + pluginUrl.value;
      subtitle := PluginName(pluginName.value);
    }

    /**
     * `open_plugin` up to the spawn call: without a selection it fails
     * before changing anything; otherwise it announces the plugin in the info
     * label and yields the argument vector to spawn.
     */
    method OpenPlugin() returns (cmd: Result<seq<string>>)
      requires Valid()
      modifies this`info
      ensures cmd == LaunchCmd()
      ensures cmd.Ok? ==> info == "... loading " + pluginName.value
      ensures cmd.Err? ==> info == old(info)
    {
      if pluginName.None? || pluginUrl.None? {
        return Err(NoSelection);
      }
      var name, url := pluginName.value, pluginUrl.value;
      info := "... loading " + name;
      if useGtk3 {
        cmd := Ok(["jalv.gtk3", url]);
      } else {
        cmd := Ok(["jalv.qt5", url]);
      }
    }

    /**
     * The argument vector `open_plugin` hands to the spawn call: the host
     * named on the toggle button, then the selected plugin's URI.
     */
    function LaunchCmd(): (r: Result<seq<string>>)
      reads this
      ensures r.Err? <==> pluginUrl.None?
      ensures r.Ok? ==> |r.value| == 2 && r.value[1] == pluginUrl.value
      ensures r.Ok? ==> (r.value[0] == "jalv.gtk3" <==> useGtk3)
      ensures r.Ok? && Valid() ==> r.value[0] == "jalv." + buttonLabel
    {
      match pluginUrl
      case None => Err(NoSelection)
      case Some(url) => Ok([HostExecutable(useGtk3), url])
    }
  }
}
