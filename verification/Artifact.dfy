/**
 Artifact references (declaration/declaration.go): soulstream://<topic-path>/<artefact-name> and file URIs.
 The URI parser is a parameter.
*/
module Artifact {
  import opened Wrappers
  import opened Names

  const PREFIX := "soulstream://"
  const FILE := "file"

  datatype Url = Url(scheme: string, path: string)

  datatype Ref = FileRef(path: string) | RecordRef(topic: string, name: string)

  datatype Refusal = Missing | NotTwoParts | SlashInName | BadTopic | NotUri | WrongScheme | NoPath

  function TrimPrefix(s: string, prefix: string): string { if prefix <= s then s[|prefix|..] else s }

  function ParseRecord(valid: string -> bool, artifact: string): Result<Ref, Refusal> {
    var cut := Cut(TrimPrefix(artifact, PREFIX), '/');
    if cut.None? || cut.value.1 == "" then Err(NotTwoParts)
    else if '/' in cut.value.1 then Err(SlashInName)
    else if !IsTopicPath(valid, cut.value.0) then Err(BadTopic)
    else Ok(RecordRef(cut.value.0, cut.value.1))
  }

  function ArtifactPath(url: string -> Option<Url>, artifact: string): Result<string, Refusal> {
    if url(artifact).None? then Err(NotUri)
    else if url(artifact).value.scheme != FILE then Err(WrongScheme)
    else Ok(url(artifact).value.path)
  }

  function ArtifactRef(valid: string -> bool, url: string -> Option<Url>, artifact: string): Result<Ref, Refusal> {
    if PREFIX <= artifact then ParseRecord(valid, artifact)
    else
      var p := ArtifactPath(url, artifact);
      if p.Ok? then Ok(FileRef(p.value)) else Err(p.error)
  }

  /** validateArtifact: None is acceptance. */
  function Validate(valid: string -> bool, url: string -> Option<Url>, artifact: string): Option<Refusal> {
    if artifact == "" then Some(Missing)
    else if PREFIX <= artifact then
      var r := ParseRecord(valid, artifact);
      if r.Ok? then None else Some(r.error)
    else if url(artifact).None? then Some(NotUri)
    else if url(artifact).value.scheme != FILE then Some(WrongScheme)
    else if url(artifact).value.path == "" then Some(NoPath)
    else None
  }

  /*** The codec ***/

  function Print(topic: string, name: string): string { PREFIX + topic + "/" + name }

  predicate Printable(valid: string -> bool, topic: string, name: string) {
    IsTopicPath(valid, topic) && name != "" && '/' !in name
  }

  /** Printing what was parsed gives the input back, character for character. */
  lemma PrintUndoesParse(valid: string -> bool, artifact: string)
    requires PREFIX <= artifact && ParseRecord(valid, artifact).Ok?
    ensures var r := ParseRecord(valid, artifact).value;
            r.RecordRef? && Print(r.topic, r.name) == artifact && Printable(valid, r.topic, r.name)
  {
    var r := ParseRecord(valid, artifact).value;
    assert artifact == PREFIX + artifact[|PREFIX|..];
    assert artifact == PREFIX + (r.topic + "/" + r.name);
  }

  lemma ParseUndoesPrint(valid: string -> bool, topic: string, name: string)
    requires NameGrammar(valid) && Printable(valid, topic, name)
    ensures ParseRecord(valid, Print(topic, name)) == Ok(RecordRef(topic, name))
  {
    PathHolds(valid, topic, '/');
    assert Print(topic, name) == PREFIX + (topic + "/" + name);
    assert TrimPrefix(Print(topic, name), PREFIX) == topic + "/" + name;
    CutAtFirst(topic, name, '/');
  }

  /** The record form is exactly the printed references, each with one reading. */
  lemma RecordFormIsExactlyThePrinted(valid: string -> bool, artifact: string)
    requires NameGrammar(valid) && PREFIX <= artifact
    ensures ParseRecord(valid, artifact).Ok?
            <==> exists topic, name :: Printable(valid, topic, name) && artifact == Print(topic, name)
    ensures forall topic, name, topic', name' ::
              Printable(valid, topic, name) && Printable(valid, topic', name')
                  && Print(topic, name) == Print(topic', name')
              ==> topic == topic' && name == name'
  {
    if ParseRecord(valid, artifact).Ok? { PrintUndoesParse(valid, artifact); }
    forall topic, name | Printable(valid, topic, name)
      ensures ParseRecord(valid, Print(topic, name)) == Ok(RecordRef(topic, name))
    {
      ParseUndoesPrint(valid, topic, name);
    }
  }

  /** The validator and the reader agree on every artifact but one kind: a file URI without a path reads
      as a reference and is not valid. The scheme is the one the text announces. */
  lemma ValidIffReadable(valid: string -> bool, url: string -> Option<Url>, artifact: string)
    requires url("").None? || url("").value.scheme != FILE
    ensures Validate(valid, url, artifact).None?
            <==> ArtifactRef(valid, url, artifact).Ok? && ArtifactRef(valid, url, artifact) != Ok(FileRef(""))
    ensures ArtifactRef(valid, url, artifact).Ok? ==>
              (ArtifactRef(valid, url, artifact).value.RecordRef? <==> PREFIX <= artifact)
    ensures forall path :: ArtifactRef(valid, url, artifact) == Ok(FileRef(path))
                           <==> !(PREFIX <= artifact) && url(artifact) == Some(Url("file", path))
    ensures ArtifactRef(valid, url, artifact).Ok? && ArtifactRef(valid, url, artifact).value.RecordRef? ==>
              var r := ArtifactRef(valid, url, artifact).value;
              artifact == Print(r.topic, r.name)
  {
    if PREFIX <= artifact && ParseRecord(valid, artifact).Ok? { PrintUndoesParse(valid, artifact); }
  }
}
