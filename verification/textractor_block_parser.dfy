/**
 * go-textractor's block index: every Textract block by ID, and the IDs of the blocks of each
 * type (all LAYOUT_* types grouped under "LAYOUT"); then the skeleton of the document, one page
 * per PAGE block.
 */
module TextractorBlockParser {
  import opened GoStrings
  import opened Wrappers
  import opened TextractorTypes

  datatype BlockParser = BlockParser(
    idTypeMap: map<string, string>,
    idBlockMap: map<string, Block>,
    typeIDMap: map<string, seq<string>>)

  /** The group a block type is listed under. */
  function GroupOf(blockType: string): string {
    if HasPrefix(blockType, "LAYOUT") then "LAYOUT" else blockType
  }

  /** The IDs (nil read as "") of the blocks in the given group, in input order. */
  function GroupIDs(blocks: seq<Block>, group: string): seq<string> {
    if |blocks| == 0 then []
    else
      var b := blocks[|blocks| - 1];
      GroupIDs(blocks[..|blocks| - 1], group) + (if GroupOf(b.blockType) == group then [ToString(b.id)] else [])
  }

  /** The state newBlockParser reaches after the given blocks. */
  function Indexed(blocks: seq<Block>): BlockParser {
    if |blocks| == 0 then BlockParser(map[], map[], map[])
    else
      var p := Indexed(blocks[..|blocks| - 1]);
      var b := blocks[|blocks| - 1];
      var id := ToString(b.id);
      var g := GroupOf(b.blockType);
      BlockParser(p.idTypeMap[id := b.blockType], p.idBlockMap[id := b],
                  p.typeIDMap[g := (if g in p.typeIDMap then p.typeIDMap[g] else []) + [id]])
  }

  /** newBlockParser: one pass over the blocks filling the three maps. */
  method NewBlockParser(blocks: seq<Block>) returns (bp: BlockParser)
    ensures bp == Indexed(blocks)
  {
    var idTypeMap: map<string, string> := map[];
    var idBlockMap: map<string, Block> := map[];
    var typeIDMap: map<string, seq<string>> := map[];
    var i := 0;
    while i < |blocks|
      invariant 0 <= i <= |blocks|
      invariant BlockParser(idTypeMap, idBlockMap, typeIDMap) == Indexed(blocks[..i])
    {
      var b := blocks[i];
      assert blocks[..i + 1][..i] == blocks[..i];
      var id := ToString(b.id);
      idTypeMap := idTypeMap[id := b.blockType];
      idBlockMap := idBlockMap[id := b];
      if HasPrefix(b.blockType, "LAYOUT") {
        typeIDMap := typeIDMap["LAYOUT" := (if "LAYOUT" in typeIDMap then typeIDMap["LAYOUT"] else []) + [id]];
      } else {
        typeIDMap := typeIDMap[b.blockType := (if b.blockType in typeIDMap then typeIDMap[b.blockType] else []) + [id]];
      }
      i := i + 1;
    }
    assert blocks[..|blocks|] == blocks;
    bp := BlockParser(idTypeMap, idBlockMap, typeIDMap);
  }

  /**
   * Every block can be found by its ID, and the block found there is the last one with that ID;
   * its recorded type is that block's type.
   */
  lemma {:induction false} IndexedByID(blocks: seq<Block>, i: nat)
    requires i < |blocks|
    ensures ToString(blocks[i].id) in Indexed(blocks).idBlockMap
    ensures ToString(blocks[i].id) in Indexed(blocks).idTypeMap
    ensures (forall j :: i < j < |blocks| ==> ToString(blocks[j].id) != ToString(blocks[i].id)) ==>
      Indexed(blocks).idBlockMap[ToString(blocks[i].id)] == blocks[i] &&
      Indexed(blocks).idTypeMap[ToString(blocks[i].id)] == blocks[i].blockType
    decreases |blocks|
  {
    var n := |blocks| - 1;
    if i < n {
      IndexedByID(blocks[..n], i);
      assert forall j :: i < j < n ==> blocks[..n][j] == blocks[j];
    }
  }

  /** The ID lists are exactly the group filters, and a group is present iff some block is in it. */
  lemma {:induction false} IndexedGroups(blocks: seq<Block>, group: string)
    ensures group in Indexed(blocks).typeIDMap <==> |GroupIDs(blocks, group)| > 0
    ensures group in Indexed(blocks).typeIDMap ==> Indexed(blocks).typeIDMap[group] == GroupIDs(blocks, group)
    decreases |blocks|
  {
    if |blocks| > 0 {
      IndexedGroups(blocks[..|blocks| - 1], group);
    }
  }

  /** The IDs and types of the blocks in a group: every listed ID belongs to a block of that group. */
  lemma {:induction false} GroupIDsFromGroup(blocks: seq<Block>, group: string, k: nat)
    requires k < |GroupIDs(blocks, group)|
    ensures exists i :: 0 <= i < |blocks| && GroupOf(blocks[i].blockType) == group && ToString(blocks[i].id) == GroupIDs(blocks, group)[k]
    decreases |blocks|
  {
    var n := |blocks| - 1;
    var prev := GroupIDs(blocks[..n], group);
    if k < |prev| {
      GroupIDsFromGroup(blocks[..n], group, k);
      var i :| 0 <= i < n && GroupOf(blocks[..n][i].blockType) == group && ToString(blocks[..n][i].id) == prev[k];
      assert blocks[..n][i] == blocks[i];
    } else {
      assert GroupOf(blocks[n].blockType) == group && ToString(blocks[n].id) == GroupIDs(blocks, group)[k];
    }
  }

  /** A LAYOUT_* block is never listed under its own type, only under "LAYOUT". */
  lemma LayoutGrouped(t: string)
    requires HasPrefix(t, "LAYOUT") && t != "LAYOUT"
    ensures GroupOf(t) == "LAYOUT" && GroupOf(t) != t
  {
  }

  /** blockTypeIDs: the IDs listed for a type, none when the type is absent. */
  function BlockTypeIDs(bp: BlockParser, blockType: string): seq<string> {
    if blockType in bp.typeIDMap then bp.typeIDMap[blockType] else []
  }

  /** The zero Block: no ID, empty type, no fields, no relationships. */
  const ZeroBlock := Block(None, "", None, None, None, None, None, [])

  /** blockByID: the block indexed under the ID, the zero block when there is none. */
  function BlockByID(bp: BlockParser, id: string): (b: Block)
    ensures id !in bp.idBlockMap ==> b == ZeroBlock
  {
    if id in bp.idBlockMap then bp.idBlockMap[id] else ZeroBlock
  }

  /** The related IDs of the relationships of the given type, in order. */
  function RelationshipIDs(rels: seq<Relationship>, relType: string): seq<string> {
    if |rels| == 0 then []
    else RelationshipIDs(rels[..|rels| - 1], relType) + (if rels[|rels| - 1].relType == relType then rels[|rels| - 1].ids else [])
  }

  /** filterRelationshipIDsByType. */
  method FilterRelationshipIDsByType(b: Block, relType: string) returns (ids: seq<string>)
    ensures ids == RelationshipIDs(b.relationships, relType)
  {
    ids := [];
    var i := 0;
    while i < |b.relationships|
      invariant 0 <= i <= |b.relationships|
      invariant ids == RelationshipIDs(b.relationships[..i], relType)
    {
      var r := b.relationships[i];
      assert b.relationships[..i + 1][..i] == b.relationships[..i];
      if r.relType == relType {
        ids := ids + r.ids;
      }
      i := i + 1;
    }
    assert b.relationships[..|b.relationships|] == b.relationships;
  }

  /** An ID is related with the given type exactly when some relationship of that type lists it. */
  lemma {:induction false} RelationshipIDsMembers(rels: seq<Relationship>, relType: string, id: string)
    ensures id in RelationshipIDs(rels, relType) <==>
      exists i :: 0 <= i < |rels| && rels[i].relType == relType && id in rels[i].ids
    decreases |rels|
  {
    if |rels| > 0 {
      var n := |rels| - 1;
      RelationshipIDsMembers(rels[..n], relType, id);
      if exists i :: 0 <= i < |rels| && rels[i].relType == relType && id in rels[i].ids {
        var i :| 0 <= i < |rels| && rels[i].relType == relType && id in rels[i].ids;
        if i < n {
          assert rels[..n][i] == rels[i];
        }
      }
    }
  }

  /** A page of the document skeleton (geometry and page elements are not modelled). */
  datatype Page = Page(id: string, number: int, childIDs: seq<string>)

  /** The page built from a PAGE block. */
  function PageOf(b: Block): Page {
    Page(ToString(b.id), ToInt32(b.page), RelationshipIDs(b.relationships, "CHILD"))
  }

  /** createDocument: one page per PAGE ID, in the order the PAGE blocks came. */
  method CreateDocument(bp: BlockParser) returns (pages: seq<Page>)
    ensures |pages| == |BlockTypeIDs(bp, "PAGE")|
    ensures forall i :: 0 <= i < |pages| ==> pages[i] == PageOf(BlockByID(bp, BlockTypeIDs(bp, "PAGE")[i]))
  {
    var ids := BlockTypeIDs(bp, "PAGE");
    pages := [];
    var i := 0;
    while i < |ids|
      invariant 0 <= i <= |ids|
      invariant |pages| == i
      invariant forall k :: 0 <= k < i ==> pages[k] == PageOf(BlockByID(bp, ids[k]))
    {
      var b := BlockByID(bp, ids[i]);
      var childIDs := FilterRelationshipIDsByType(b, "CHILD");
      pages := pages + [Page(ToString(b.id), ToInt32(b.page), childIDs)];
      i := i + 1;
    }
  }

  /** Every block indexed under an ID carries that ID (nil IDs are indexed under ""). */
  lemma {:induction false} IndexedUnderOwnID(blocks: seq<Block>, id: string)
    requires id in Indexed(blocks).idBlockMap
    ensures ToString(Indexed(blocks).idBlockMap[id].id) == id
    decreases |blocks|
  {
    var n := |blocks| - 1;
    if ToString(blocks[n].id) != id {
      IndexedUnderOwnID(blocks[..n], id);
    }
  }

  /**
   * For the parser built from the blocks, the document has one page per PAGE block, and each page
   * carries the ID it was listed under.
   */
  lemma PagesOfBlocks(blocks: seq<Block>)
    ensures |BlockTypeIDs(Indexed(blocks), "PAGE")| == |GroupIDs(blocks, "PAGE")|
    ensures forall k :: 0 <= k < |BlockTypeIDs(Indexed(blocks), "PAGE")| ==>
      PageOf(BlockByID(Indexed(blocks), BlockTypeIDs(Indexed(blocks), "PAGE")[k])).id == BlockTypeIDs(Indexed(blocks), "PAGE")[k]
  {
    var bp := Indexed(blocks);
    IndexedGroups(blocks, "PAGE");
    forall k | 0 <= k < |BlockTypeIDs(bp, "PAGE")|
      ensures PageOf(BlockByID(bp, BlockTypeIDs(bp, "PAGE")[k])).id == BlockTypeIDs(bp, "PAGE")[k]
    {
      var id := BlockTypeIDs(bp, "PAGE")[k];
      GroupIDsFromGroup(blocks, "PAGE", k);
      var i :| 0 <= i < |blocks| && GroupOf(blocks[i].blockType) == "PAGE" && ToString(blocks[i].id) == id;
      IndexedByID(blocks, i);
      IndexedUnderOwnID(blocks, id);
    }
  }
}
