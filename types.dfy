/** The records the services, the endpoints and the views exchange
    (the DTOs and commands of the application's type definitions). */
module Types {
  import opened Common

  /** `FlashcardDTO` */
  datatype FlashcardDTO = FlashcardDTO(
    id: int,
    front: string,
    back: string,
    phonetic: Option<string>,
    source: string,
    createdAt: string,
    updatedAt: string,
    userId: string,
    tags: seq<string>)

  /** `CreateFlashcardCommand`; an absent phonetic and a `null` one are
      stored alike. */
  datatype CreateCommand = CreateCommand(front: string, back: string, phonetic: Option<string>, tags: seq<string>)

  /** The `phonetic` of an update: absent leaves the column as it is. */
  datatype PhoneticUpdate = Omitted | Given(value: Option<string>)

  /** `UpdateFlashcardCommand` */
  datatype UpdateCommand = UpdateCommand(id: int, front: string, back: string, phonetic: PhoneticUpdate, tags: seq<string>)

  /** `GeneratedFlashcardDTO` as the browser sees it. */
  datatype GeneratedCard = GeneratedCard(front: string, back: string, phonetic: Option<string>, tags: seq<string>, source: string)
}
