/** What all modules call a document by. */
module Documents {

  type DocId = string
}
