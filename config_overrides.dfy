/** `replacePlugin` of the build configuration override (config-overrides.js):
    replace, or drop, the first plugin whose constructor name matches. */
module ConfigOverrides {
  import opened Wrappers

  /** A webpack plugin: the name of its constructor, when it has a
      constructor with a name, and its identity. */
  datatype Plugin = Plugin(constructorName: Option<string>, id: nat)

  /** The findIndex test: a constructor with a non-empty name that the
      matcher accepts. */
  predicate Matches(plugin: Plugin, nameMatcher: string -> bool) {
    plugin.constructorName.Some? && plugin.constructorName.value != "" && nameMatcher(plugin.constructorName.value)
  }

  function FirstMatch(plugins: seq<Plugin>, nameMatcher: string -> bool): (i: int)
    ensures -1 <= i < |plugins|
    ensures i == -1 <==> forall k :: 0 <= k < |plugins| ==> !Matches(plugins[k], nameMatcher)
    ensures i >= 0 ==> Matches(plugins[i], nameMatcher) && forall k :: 0 <= k < i ==> !Matches(plugins[k], nameMatcher)
  {
    if |plugins| == 0 then -1
    else if Matches(plugins[0], nameMatcher) then 0
    else
      var i := FirstMatch(plugins[1..], nameMatcher);
      if i == -1 then -1 else i + 1
  }

  /** `plugins.slice(0, i).concat(newPlugin || []).concat(plugins.slice(i + 1))`
      for the first match `i`; the list itself when nothing matches. */
  function ReplacePlugin(plugins: seq<Plugin>, nameMatcher: string -> bool, newPlugin: Option<Plugin>): seq<Plugin> {
    var i := FirstMatch(plugins, nameMatcher);
    if i > -1 then
      plugins[..i] + (if newPlugin.Some? then [newPlugin.value] else []) + plugins[i + 1..]
    else plugins
  }

  function MatchCount(plugins: seq<Plugin>, nameMatcher: string -> bool): nat {
    if |plugins| == 0 then 0
    else (if Matches(plugins[0], nameMatcher) then 1 else 0) + MatchCount(plugins[1..], nameMatcher)
  }

  lemma {:induction false} MatchCountAppend(a: seq<Plugin>, b: seq<Plugin>, nameMatcher: string -> bool)
    ensures MatchCount(a + b, nameMatcher) == MatchCount(a, nameMatcher) + MatchCount(b, nameMatcher)
  {
    if |a| > 0 {
      MatchCountAppend(a[1..], b, nameMatcher);
      assert (a + b)[1..] == a[1..] + b;
    } else {
      assert a + b == b;
    }
  }

  lemma {:induction false} NoMatchCount(a: seq<Plugin>, nameMatcher: string -> bool)
    requires forall k :: 0 <= k < |a| ==> !Matches(a[k], nameMatcher)
    ensures MatchCount(a, nameMatcher) == 0
  {
    if |a| > 0 {
      NoMatchCount(a[1..], nameMatcher);
    }
  }

  /** Nothing matching: the list is returned as it is. A match: the plugins
      before and after it are kept in order, the match is replaced by the
      new plugin (same length) or removed (one shorter), and one matching
      plugin fewer remains unless the new plugin matches itself. */
  lemma {:induction false} ReplacePluginFacts(plugins: seq<Plugin>, nameMatcher: string -> bool, newPlugin: Option<Plugin>)
    ensures var r := ReplacePlugin(plugins, nameMatcher, newPlugin);
      var i := FirstMatch(plugins, nameMatcher);
      (i == -1 ==> r == plugins) &&
      (i >= 0 ==>
        r[..i] == plugins[..i] &&
        (newPlugin.Some? ==> |r| == |plugins| && r[i] == newPlugin.value && r[i + 1..] == plugins[i + 1..]) &&
        (newPlugin.None? ==> |r| == |plugins| - 1 && r[i..] == plugins[i + 1..]) &&
        MatchCount(r, nameMatcher) ==
          MatchCount(plugins, nameMatcher) - 1 + (if newPlugin.Some? && Matches(newPlugin.value, nameMatcher) then 1 else 0))
  {
    var i := FirstMatch(plugins, nameMatcher);
    if i >= 0 {
      var mid: seq<Plugin> := if newPlugin.Some? then [newPlugin.value] else [];
      var r := plugins[..i] + mid + plugins[i + 1..];
      assert plugins == plugins[..i] + [plugins[i]] + plugins[i + 1..];
      MatchCountAppend(plugins[..i] + [plugins[i]], plugins[i + 1..], nameMatcher);
      MatchCountAppend(plugins[..i], [plugins[i]], nameMatcher);
      MatchCountAppend(plugins[..i] + mid, plugins[i + 1..], nameMatcher);
      MatchCountAppend(plugins[..i], mid, nameMatcher);
      NoMatchCount(plugins[..i], nameMatcher);
    }
  }

  /** A plugin without a constructor name is never the one replaced. */
  lemma NamelessNeverReplaced(plugins: seq<Plugin>, nameMatcher: string -> bool, newPlugin: Option<Plugin>, k: nat)
    requires k < |plugins| && (plugins[k].constructorName.None? || plugins[k].constructorName == Some(""))
    ensures FirstMatch(plugins, nameMatcher) != k
  {
  }

  /** Replacing with a plugin that itself matches is idempotent: the second
      call finds the new plugin first and puts it back. */
  lemma {:induction false} ReplaceWithMatchingIdempotent(plugins: seq<Plugin>, nameMatcher: string -> bool, p: Plugin)
    requires Matches(p, nameMatcher)
    ensures var once := ReplacePlugin(plugins, nameMatcher, Some(p));
      ReplacePlugin(once, nameMatcher, Some(p)) == once
  {
    var i := FirstMatch(plugins, nameMatcher);
    var once := ReplacePlugin(plugins, nameMatcher, Some(p));
    if i >= 0 {
      ReplacePluginFacts(plugins, nameMatcher, Some(p));
      assert forall k :: 0 <= k < i ==> once[k] == plugins[k];
      assert FirstMatch(once, nameMatcher) == i;
      assert once == once[..i] + [p] + once[i + 1..];
    }
  }
}
