/**
 * Folder paths: the folder a host belongs in, derived from its labels when
 * a label path template is configured, else the fixed configured folder.
 */
module Paths {
  import opened Text

  const FOLDER_PLACEHOLDER: string := "undefined"
  const PATH_SEPERATOR: string := "/"

  /** The path segment for `key`: the label's value, or the placeholder when it is missing or empty. */
  function Segment(labels: map<string, string>, key: string): (s: string)
    ensures s != ""
    ensures key in labels && labels[key] != "" ==> s == labels[key]
    ensures !(key in labels && labels[key] != "") ==> s == FOLDER_PLACEHOLDER
  {
    if key in labels && labels[key] != "" then labels[key] else FOLDER_PLACEHOLDER
  }

  /**
   * `generate_path_from_labels`: a host without labels gets `depth`
   * placeholders (none for a depth below one); otherwise one segment per key.
   */
  function GeneratePathFromLabels(labels: map<string, string>, keys: seq<string>, depth: int): (r: seq<string>)
    ensures labels == map[] ==> |r| == (if depth > 0 then depth else 0)
    ensures labels != map[] ==> |r| == |keys|
    ensures labels == map[] ==> forall i :: 0 <= i < |r| ==> r[i] == FOLDER_PLACEHOLDER
    ensures labels != map[] ==> forall i :: 0 <= i < |keys| ==> r[i] == Segment(labels, keys[i])
    ensures forall i :: 0 <= i < |r| ==> r[i] != ""
  {
    if labels == map[] then
      seq(if depth > 0 then depth else 0, _ => FOLDER_PLACEHOLDER)
    else
      seq(|keys|, i requires 0 <= i < |keys| => Segment(labels, keys[i]))
  }

  /**
   * Each segment of a labelled host's path is that key's label value when
   * it is set and non-empty, else the placeholder; a host without labels
   * gets placeholders only.
   */
  lemma GeneratedSegments(labels: map<string, string>, keys: seq<string>, depth: int)
    ensures var r := GeneratePathFromLabels(labels, keys, depth);
      labels == map[] ==> forall i :: 0 <= i < |r| ==> r[i] == FOLDER_PLACEHOLDER
    ensures var r := GeneratePathFromLabels(labels, keys, depth);
      labels != map[] ==> forall i :: 0 <= i < |keys| ==>
        (keys[i] in labels && labels[keys[i]] != "" ==> r[i] == labels[keys[i]]) &&
        (keys[i] !in labels || labels[keys[i]] == "" ==> r[i] == FOLDER_PLACEHOLDER)
  {
  }

  /** The segments before joining: the configured folder (when not empty) then the label path, blanks made `_`. */
  function DynamicSegments(labels: map<string, string>, keys: seq<string>, depth: int, folder: string): (r: seq<string>)
    ensures forall i :: 0 <= i < |r| ==> ' ' !in r[i]
    ensures |r| == (if folder != "" then 1 else 0) + |GeneratePathFromLabels(labels, keys, depth)|
    ensures folder != "" ==> r[0] == ReplaceChar(folder, ' ', '_')
    ensures var path := GeneratePathFromLabels(labels, keys, depth);
      var off := if folder != "" then 1 else 0;
      forall i :: 0 <= i < |path| ==> r[off + i] == ReplaceChar(path[i], ' ', '_')
  {
    var path := GeneratePathFromLabels(labels, keys, depth);
    var full := if folder != "" then [folder] + path else path;
    seq(|full|, i requires 0 <= i < |full| => ReplaceChar(full[i], ' ', '_'))
  }

  /** `get_dynamic_folder_path`. */
  function DynamicFolderPath(labels: map<string, string>, keys: seq<string>, depth: int, folder: string): string {
    Join(DynamicSegments(labels, keys, depth, folder), PATH_SEPERATOR)
  }

  /**
   * `get_folder_path`: with a label path template, the template's `/`-separated
   * label names give the keys and the depth; without one, the configured folder.
   */
  function FolderPath(template: string, folder: string, labels: map<string, string>): string {
    if template != "" then
      var keys := Split(template, PATH_SEPERATOR);
      DynamicFolderPath(labels, keys, |keys|, folder)
    else folder
  }

  /**
   * When neither the folder nor any label value used contains `/`, the path
   * splits back into its segments: the folder first (blanks made `_`) when
   * configured, then one segment per template key.
   */
  lemma DynamicFolderPathSplits(labels: map<string, string>, keys: seq<string>, folder: string)
    requires |keys| >= 1
    requires '/' !in folder
    requires forall k :: k in labels ==> '/' !in labels[k]
    ensures var segs := Split(DynamicFolderPath(labels, keys, |keys|, folder), PATH_SEPERATOR);
      var off := if folder != "" then 1 else 0;
      |segs| == off + |keys| &&
      (folder != "" ==> segs[0] == ReplaceChar(folder, ' ', '_')) &&
      forall i :: 0 <= i < |keys| ==> segs[off + i] == ReplaceChar(GeneratePathFromLabels(labels, keys, |keys|)[i], ' ', '_')
  {
    var segs := DynamicSegments(labels, keys, |keys|, folder);
    var path := GeneratePathFromLabels(labels, keys, |keys|);
    forall i | 0 <= i < |path| ensures '/' !in path[i] {
      if labels != map[] && keys[i] in labels && labels[keys[i]] != "" {
        assert path[i] == labels[keys[i]];
      }
    }
    forall i | 0 <= i < |segs| ensures '/' !in segs[i] {
      var full := if folder != "" then [folder] + path else path;
      assert segs[i] == ReplaceChar(full[i], ' ', '_');
      assert '/' !in full[i];
    }
    SplitJoin(segs, '/');
  }
}
