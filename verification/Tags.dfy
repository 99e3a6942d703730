/** The resource-tag table. */
module Tags {
  import opened Conditions

  /** One tag on one resource; `resourceType` says which kind of resource `resourceId` identifies. */
  datatype TagRow = TagRow(resourceType: string, resourceId: int, key: string, value: string)

  function TagsOf(rows: seq<TagRow>, resourceType: string, resourceId: int): set<Pair> {
    set row | row in rows && row.resourceType == resourceType && row.resourceId == resourceId :: (row.key, row.value)
  }

  /** An app carries its own tags and inherits its workspace's. */
  function EffectiveAppTags(rows: seq<TagRow>, app: int, workspace: int): set<Pair> {
    TagsOf(rows, "app", app) + TagsOf(rows, "workspace", workspace)
  }
}
