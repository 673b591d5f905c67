/** A langchain `Document`: page text and its metadata dictionary. */
module Docs {

  /**
   * `metadata` holds the string-valued entries the chatbot reads
   * (`source_file`, `file_path`, `document_type`).
   */
  datatype Document = Document(pageContent: string, metadata: map<string, string>)

  /** `metadata.get(key, default)`. */
  function MetaGet(metadata: map<string, string>, key: string, default: string): string {
    if key in metadata then metadata[key] else default
  }
}
