/**
 * The index page: the configured choices, each paired with its image.
 */
module IndexPage {
  import opened Wrappers

  /** The poll as configured: choice texts, their images (by position), and
      the question. */
  datatype PollConfig = PollConfig(choices: seq<string>, images: seq<string>, question: string)

  /** One entry of the page's choice list. */
  datatype Choice = Choice(text: string, image: string)

  /** The list index that was read past the end of the image list. */
  datatype IndexError = IndexOutOfBounds(index: int)

  function Texts(cs: seq<Choice>): seq<string>
  {
    seq(|cs|, i requires 0 <= i < |cs| => cs[i].text)
  }

  function Images(cs: seq<Choice>): seq<string>
  {
    seq(|cs|, i requires 0 <= i < |cs| => cs[i].image)
  }

  /** Builds the choice list by pairing the i-th choice with the i-th image.
      With fewer images than choices the lookup of image `|images|` fails and
      the page is not built. */
  method Index(config: PollConfig) returns (r: Result<seq<Choice>, IndexError>)
    ensures r.Success? <==> |config.images| >= |config.choices|
    ensures r.Success? ==> |r.value| == |config.choices|
    ensures r.Success? ==> forall i :: 0 <= i < |r.value| ==> r.value[i] == Choice(config.choices[i], config.images[i])
    ensures r.Success? ==> Texts(r.value) == config.choices && Images(r.value) == config.images[..|config.choices|]
    ensures r.Failure? ==> r.error == IndexOutOfBounds(|config.images|)
  {
    var choices: seq<Choice> := [];
    var i := 0;
    while i < |config.choices|
      invariant 0 <= i <= |config.choices|
      invariant i <= |config.images|
      invariant |choices| == i
      invariant forall k :: 0 <= k < i ==> choices[k] == Choice(config.choices[k], config.images[k])
    {
      if i >= |config.images| {
        return Failure(IndexOutOfBounds(i));
      }
      choices := choices + [Choice(config.choices[i], config.images[i])];
      i := i + 1;
    }
    assert Texts(choices) == config.choices;
    assert Images(choices) == config.images[..|config.choices|];
    r := Success(choices);
  }
}
