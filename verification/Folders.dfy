/** The kinds of folders of a server. */
module Folders {

  datatype FolderType = INBOX | INCOMING | OUTBOX | SENT_ITEMS
}
