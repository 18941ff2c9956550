/**
 * Where each repository's tool listens (`InMemoryToolsInfoStore`): a map from repository
 * id to the tool's base URL, written when a session is started and removed when it ends.
 */
module ToolsInfo {
  import opened Wrappers

  class InMemoryToolsInfoStore {
    /** `toolUrls`. */
    var toolUrls: map<string, string>

    constructor ()
      ensures toolUrls == map[]
    {
      toolUrls := map[];
    }

    /** Records `toolUrl` for the repository, replacing any earlier one. */
    method RegisterToolUrl(repositoryId: string, toolUrl: string)
      modifies this
      ensures toolUrls == old(toolUrls)[repositoryId := toolUrl]
      ensures Lookup(toolUrls, repositoryId) == Some(toolUrl)
      ensures forall other :: other != repositoryId ==> Lookup(toolUrls, other) == Lookup(old(toolUrls), other)
    {
      toolUrls := toolUrls[repositoryId := toolUrl];
    }

    /** The repository's URL, or empty when none is registered. */
    method GetToolUrl(repositoryId: string) returns (r: Option<string>)
      ensures r.Some? <==> repositoryId in toolUrls
      ensures r.Some? ==> r.value == toolUrls[repositoryId]
    {
      r := Lookup(toolUrls, repositoryId);
    }

    /** Forgets the repository's URL; removing an absent one changes nothing. */
    method RemoveToolUrl(repositoryId: string)
      modifies this
      ensures toolUrls == old(toolUrls) - {repositoryId}
      ensures Lookup(toolUrls, repositoryId) == None
      ensures forall other :: other != repositoryId ==> Lookup(toolUrls, other) == Lookup(old(toolUrls), other)
      ensures repositoryId !in old(toolUrls) ==> toolUrls == old(toolUrls)
    {
      toolUrls := toolUrls - {repositoryId};
    }
  }
}
