/**
 * Resolving a plugin's dependencies while checking plugins against a release IDE and a
 * trunk IDE: the last-compatible-version selector, the memoizing resolver shared by both
 * checks, and the two fallback chains (bundled plugins first, then a download).
 *
 * The plugin repository, the bundled-plugin index of each IDE and the downloads are
 * outside the model. The bundled index of an IDE is fixed, so it is a function; the
 * repository and the downloads may answer differently from one call to the next, so
 * each resolving call receives them, as a `Repository`, in the state they are in then.
 */
module DependencyResolution {
  import opened Wrappers
  import opened Strings
  import opened IdeVersions
  import opened IdePlugins

  /** A plugin build published in the repository. */
  datatype UpdateInfo = UpdateInfo(pluginId: string, version: string, updateId: nat)

  /** A plugin the resolver hands back (bundled with the IDE or downloaded). */
  datatype Artifact = Artifact(pluginId: string, version: string)

  /** `DependencySelector.Result`. */
  datatype SelectorResult = SelectedPlugin(updateInfo: UpdateInfo) | SelectionNotFound(reason: string)

  /**
   * `DependencyResolver.Result`: a plugin, a plain absence, or another failure (a broken
   * download, say) that the fallback chains pass on as it is.
   */
  datatype Result = Plugin(artifact: Artifact) | NotFound(reason: string) | Failed(reason: string)

  /** The repository and the downloads, in the state they are in at the moment of one call. */
  datatype Repository = Repository(
    /** `getLastCompatibleUpdateOfPlugin(ideVersion, pluginId)`. */
    lastCompatibleUpdate: (IdeVersion, string) -> Option<UpdateInfo>,
    /** Downloading and opening a selected update (`DownloadDependencyResolver`). */
    fetch: UpdateInfo -> Result,
    /** `DownloadDependencyResolver(LastUpdateSelector())`: the newest build whatever its IDE range. */
    lastUpdateDownload: PluginDependency -> Result)

  function NotCompatibleReason(pluginId: string, ideVersion: IdeVersion): string {
    "Plugin " + pluginId + " doesn't have a build compatible with " + Presentation(ideVersion)
  }

  /**
   * `LastCompatibleSelector.select`: one repository query with the selector's own IDE
   * version; a plugin exactly when the repository has an update, otherwise an absence whose
   * reason names both the plugin and the IDE version.
   */
  function Select(ideVersion: IdeVersion, lastCompatibleUpdate: (IdeVersion, string) -> Option<UpdateInfo>, pluginId: string)
    : (r: SelectorResult)
    ensures r.SelectedPlugin? <==> lastCompatibleUpdate(ideVersion, pluginId).Some?
    ensures r.SelectedPlugin? ==> r.updateInfo == lastCompatibleUpdate(ideVersion, pluginId).value
    ensures r.SelectionNotFound? ==> Contains(r.reason, pluginId) && Contains(r.reason, Presentation(ideVersion))
  {
    match lastCompatibleUpdate(ideVersion, pluginId)
    case Some(updateInfo) => SelectedPlugin(updateInfo)
    case None =>
      var reason := NotCompatibleReason(pluginId, ideVersion);
      var head, middle, version := "Plugin ", " doesn't have a build compatible with ", Presentation(ideVersion);
      assert reason == head + pluginId + (middle + version);
      assert reason == (head + pluginId + middle) + version + [];
      ContainsInfix(head, pluginId, middle + version);
      ContainsInfix(head + pluginId + middle, version, []);
      SelectionNotFound(reason)
  }

  /**
   * `DownloadDependencyResolver(LastCompatibleSelector(releaseVersion))`: the selected update is
   * fetched; a failed selection becomes `NotFound` with the selector's reason.
   */
  function ReleaseDownload(releaseVersion: IdeVersion, repository: Repository, dependency: PluginDependency)
    : (r: Result)
    ensures repository.lastCompatibleUpdate(releaseVersion, dependency.id).Some? ==>
      r == repository.fetch(repository.lastCompatibleUpdate(releaseVersion, dependency.id).value)
    ensures repository.lastCompatibleUpdate(releaseVersion, dependency.id).None? ==>
      r.NotFound? && Contains(r.reason, dependency.id)
  {
    match Select(releaseVersion, repository.lastCompatibleUpdate, dependency.id)
    case SelectedPlugin(updateInfo) => repository.fetch(updateInfo)
    case SelectionNotFound(reason) => NotFound(reason)
  }

  /**
   * `RepeatingResolver`: remembers the delegate's answer for every dependency it has been
   * asked about, `NotFound` included, and never asks the delegate twice about one dependency.
   * `delegateCalls` records, in order, every dependency the delegate was asked about.
   */
  class RepeatingResolver {
    var results: map<PluginDependency, Result>
    ghost var delegateCalls: seq<PluginDependency>

    ghost predicate Valid()
      reads this
    {
      && (forall d :: d in delegateCalls <==> d in results)
      && (forall i, j :: 0 <= i < j < |delegateCalls| ==> delegateCalls[i] != delegateCalls[j])
    }

    constructor ()
      ensures Valid() && results == map[] && delegateCalls == []
    {
      results := map[];
      delegateCalls := [];
    }

    /**
     * `results.getOrPut(dependency) { delegate.resolve(dependency) }`, where `delegate` is the
     * delegate's behaviour at the time of the call.
     */
    method Resolve(dependency: PluginDependency, delegate: PluginDependency -> Result) returns (r: Result)
      requires Valid()
      modifies this
      ensures Valid()
      ensures dependency in old(results) ==>
        r == old(results)[dependency] && results == old(results) && delegateCalls == old(delegateCalls)
      ensures dependency !in old(results) ==>
        && r == delegate(dependency)
        && results == old(results)[dependency := r]
        && delegateCalls == old(delegateCalls) + [dependency]
    {
      if dependency in results {
        r := results[dependency];
      } else {
        r := delegate(dependency);
        results := results[dependency := r];
        delegateCalls := delegateCalls + [dependency];
      }
    }
  }

  /**
   * The dependency resolution of `CheckTrunkApiTask`: one repeating resolver over the release
   * download resolver, shared by the release chain and the trunk chain.
   */
  class CheckTrunkApiTask {
    const releaseVersion: IdeVersion
    const jetBrainsPluginIds: set<string>
    /** `BundledPluginDependencyResolver(releaseIde)` and `BundledPluginDependencyResolver(trunkIde)`. */
    const releaseBundled: PluginDependency -> Result
    const trunkBundled: PluginDependency -> Result
    const repeatingResolver: RepeatingResolver

    constructor (releaseVersion: IdeVersion, jetBrainsPluginIds: set<string>,
                 releaseBundled: PluginDependency -> Result, trunkBundled: PluginDependency -> Result)
      ensures this.releaseVersion == releaseVersion && this.jetBrainsPluginIds == jetBrainsPluginIds
      ensures this.releaseBundled == releaseBundled && this.trunkBundled == trunkBundled
      ensures fresh(repeatingResolver) && repeatingResolver.Valid()
      ensures repeatingResolver.results == map[] && repeatingResolver.delegateCalls == []
    {
      this.releaseVersion := releaseVersion;
      this.jetBrainsPluginIds := jetBrainsPluginIds;
      this.releaseBundled := releaseBundled;
      this.trunkBundled := trunkBundled;
      repeatingResolver := new RepeatingResolver();
    }

    /** What the shared repeating resolver answers for `dependency` in its current state. */
    ghost function Repeated(dependency: PluginDependency, repository: Repository): Result
      reads repeatingResolver
    {
      if dependency in repeatingResolver.results then repeatingResolver.results[dependency]
      else ReleaseDownload(releaseVersion, repository, dependency)
    }

    /** The shared resolver after being asked about `dependency`. */
    twostate predicate AskedRepeating(dependency: PluginDependency, r: Result)
      reads repeatingResolver
    {
      if dependency in old(repeatingResolver.results) then
        && repeatingResolver.results == old(repeatingResolver.results)
        && repeatingResolver.delegateCalls == old(repeatingResolver.delegateCalls)
      else
        && repeatingResolver.results == old(repeatingResolver.results)[dependency := r]
        && repeatingResolver.delegateCalls == old(repeatingResolver.delegateCalls) + [dependency]
    }

    /** `ReleaseResolver.resolve`: the release IDE's bundled plugins first, then the shared resolver. */
    method ReleaseResolve(dependency: PluginDependency, repository: Repository) returns (r: Result)
      requires repeatingResolver.Valid()
      modifies repeatingResolver
      ensures repeatingResolver.Valid()
      ensures !releaseBundled(dependency).NotFound? ==>
        r == releaseBundled(dependency) && unchanged(repeatingResolver)
      ensures releaseBundled(dependency).NotFound? ==>
        r == old(Repeated(dependency, repository)) && AskedRepeating(dependency, r)
    {
      var bundled := releaseBundled(dependency);
      if bundled.NotFound? {
        r := repeatingResolver.Resolve(dependency, d => ReleaseDownload(releaseVersion, repository, d));
      } else {
        r := bundled;
      }
    }

    /**
     * `TrunkResolver.resolve`: the trunk IDE's bundled plugins first; then modules and JetBrains
     * plugins are downloaded in their newest build, without memoizing; anything else goes to
     * the resolver shared with the release chain.
     */
    method TrunkResolve(dependency: PluginDependency, repository: Repository) returns (r: Result)
      requires repeatingResolver.Valid()
      modifies repeatingResolver
      ensures repeatingResolver.Valid()
      ensures !trunkBundled(dependency).NotFound? ==>
        r == trunkBundled(dependency) && unchanged(repeatingResolver)
      ensures trunkBundled(dependency).NotFound? && (dependency.isModule || dependency.id in jetBrainsPluginIds) ==>
        r == repository.lastUpdateDownload(dependency) && unchanged(repeatingResolver)
      ensures trunkBundled(dependency).NotFound? && !dependency.isModule && dependency.id !in jetBrainsPluginIds ==>
        r == old(Repeated(dependency, repository)) && AskedRepeating(dependency, r)
    {
      var bundledResult := trunkBundled(dependency);
      if !bundledResult.NotFound? {
        return bundledResult;
      }
      if dependency.isModule || dependency.id in jetBrainsPluginIds {
        return repository.lastUpdateDownload(dependency);
      }
      r := repeatingResolver.Resolve(dependency, d => ReleaseDownload(releaseVersion, repository, d));
    }
  }

  /**
   * The plugins the task checks: the repository's last compatible updates minus every
   * plugin whose id is a JetBrains plugin id, in their original order.
   */
  function PluginsToCheck(updates: seq<UpdateInfo>, jetBrainsPluginIds: set<string>): (r: seq<UpdateInfo>)
    ensures forall k :: 0 <= k < |r| ==> r[k].pluginId !in jetBrainsPluginIds
    ensures forall u :: u in r ==> u in updates
    ensures forall u :: u in updates && u.pluginId !in jetBrainsPluginIds ==> u in r
    ensures |r| <= |updates|
  {
    if |updates| == 0 then []
    else
      var tail := PluginsToCheck(updates[1..], jetBrainsPluginIds);
      assert forall u :: u in updates ==> u == updates[0] || u in updates[1..];
      if updates[0].pluginId in jetBrainsPluginIds then tail else [updates[0]] + tail
  }

  /**
   * The filter keeps the original order: filtering a concatenation filters each part and
   * concatenates the results, so (with the one-update case fixed by the contract above) every
   * kept update stays in its place relative to the others.
   */
  lemma {:induction false} PluginsToCheckAppend(a: seq<UpdateInfo>, b: seq<UpdateInfo>, jetBrainsPluginIds: set<string>)
    ensures PluginsToCheck(a + b, jetBrainsPluginIds) == PluginsToCheck(a, jetBrainsPluginIds) + PluginsToCheck(b, jetBrainsPluginIds)
    decreases |a|
  {
    if |a| > 0 {
      assert (a + b)[0] == a[0];
      assert (a + b)[1..] == a[1..] + b;
      PluginsToCheckAppend(a[1..], b, jetBrainsPluginIds);
    } else {
      assert a + b == b;
    }
  }
}
